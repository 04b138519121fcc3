/**
 * Parsed JSON values as Python's `json.load` produces them: `None`, `bool`,
 * `int`, `float`, `str`, `list` and `dict`.  A dict keeps its keys in
 * insertion order, so an object is a sequence of fields.
 */
module JsonValue {
  import opened Wrappers
  import opened PyText

  datatype Json =
    | JNull
    | JBool(b: bool)
    | JInt(n: int)
      /** A Python float: the text `str()` gives for it, and its value when `is_integer()` holds. */
    | JFloat(text: string, whole: Option<int>)
    | JStr(s: string)
    | JArr(items: seq<Json>)
    | JObj(fields: Obj)

  /**
   * A dict: its values by key, and its keys in insertion order (the order `str()` and `json.dump` follow).
   * Two dicts with the same values are equal in Python whatever their order; here the order is part of the value.
   */
  datatype Obj = Obj(keys: seq<string>, vals: map<string, Json>)

  /** `{}`. */
  const EmptyObj: Obj := Obj([], map[])

  /** `d.get(k)` for a key that may be missing. */
  function Get(o: Obj, k: string): Option<Json> {
    if k in o.vals then Some(o.vals[k]) else None
  }

  /** `k in d`. */
  predicate Has(o: Obj, k: string) {
    k in o.vals
  }

  /** `d.get(k, default)`. */
  function GetOr(o: Obj, k: string, default: Json): Json {
    if k in o.vals then o.vals[k] else default
  }

  /** `d[k] = v`: an existing key keeps its place, a new key goes last. */
  function Put(o: Obj, k: string, v: Json): (r: Obj)
    ensures Get(r, k) == Some(v)
    ensures forall k' {:trigger Get(r, k')} :: k' != k ==> Get(r, k') == Get(o, k')
  {
    Obj(if k in o.vals then o.keys else o.keys + [k], o.vals[k := v])
  }

  /** Storing the value a key already has changes nothing. */
  lemma PutSame(o: Obj, k: string, v: Json)
    requires Get(o, k) == Some(v)
    ensures Put(o, k, v) == o
  {
    assert o.vals[k := v] == o.vals;
  }

  /** `if k not in d: d[k] = v`: a present key keeps its value, a missing one gets `v`. */
  function WithDefault(o: Obj, k: string, v: Json): (r: Obj)
    ensures Get(r, k) == if Has(o, k) then Get(o, k) else Some(v)
    ensures forall k' {:trigger Get(r, k')} :: k' != k ==> Get(r, k') == Get(o, k')
    ensures Has(o, k) <==> r == o
  {
    if Has(o, k) then o else Put(o, k, v)
  }

  /** The keys of `ks` other than `k`, in order. */
  function Without(ks: seq<string>, k: string): (r: seq<string>)
    ensures k !in r
    ensures forall x {:trigger x in r} :: x in r <==> x in ks && x != k
  {
    if |ks| == 0 then []
    else (if ks[0] == k then [] else [ks[0]]) + Without(ks[1..], k)
  }

  /** `d.pop(k, None)`. */
  function Pop(o: Obj, k: string): (r: Obj)
    ensures Get(r, k) == None
    ensures forall k' {:trigger Get(r, k')} :: k' != k ==> Get(r, k') == Get(o, k')
  {
    Obj(Without(o.keys, k), o.vals - {k})
  }

  /** The order of the keys after `update`: the old keys, then each new key of `ks` where it first occurs. */
  function KeysAfter(keys: seq<string>, ks: seq<string>): seq<string>
    decreases |ks|
  {
    if |ks| == 0 then keys
    else KeysAfter(if ks[0] in keys then keys else keys + [ks[0]], ks[1..])
  }

  /** `d.update(n)`: every key of `n` is stored in `d` with its value in `n`. */
  function Update(o: Obj, n: Obj): (r: Obj)
    ensures forall k {:trigger Has(r, k)} :: Has(o, k) || Has(n, k) ==> Has(r, k)
    ensures forall k {:trigger Get(r, k)} :: !Has(n, k) ==> Get(r, k) == Get(o, k)
    ensures forall k {:trigger Get(r, k)} :: Has(n, k) ==> Get(r, k) == Get(n, k)
  {
    Obj(KeysAfter(o.keys, n.keys), o.vals + n.vals)
  }

  /** Python truthiness: `None`, `False`, zero, and empty strings, lists and dicts are false. */
  predicate Truthy(v: Json) {
    match v
    case JNull => false
    case JBool(b) => b
    case JInt(n) => n != 0
    case JFloat(_, w) => w != Some(0)
    case JStr(s) => s != ""
    case JArr(xs) => xs != []
    case JObj(fs) => |fs.vals| != 0
  }

  /** `a or b`: the first operand when it is truthy, else the second. */
  function Or(a: Json, b: Json): (r: Json)
    ensures Truthy(a) ==> r == a
    ensures !Truthy(a) ==> r == b
  {
    if Truthy(a) then a else b
  }

  /** `repr(v)`, the text Python prints for a value nested in a list or dict. */
  function Repr(v: Json): string {
    match v
    case JNull => "None"
    case JBool(b) => if b then "True" else "False"
    case JInt(n) => IntToString(n)
    case JFloat(t, _) => t
    case JStr(s) => StrRepr(s)
    case JArr(xs) => "[" + ReprItems(xs) + "]"
    case JObj(fs) => "{" + ReprFields(fs, fs.keys) + "}"
  }

  function ReprItems(xs: seq<Json>): string {
    if |xs| == 0 then ""
    else if |xs| == 1 then Repr(xs[0])
    else Repr(xs[0]) + ", " + ReprItems(xs[1..])
  }

  /** The `key: value` pairs of a dict, in key order. */
  function ReprFields(fs: Obj, ks: seq<string>): string
    decreases fs, |ks|
  {
    if |ks| == 0 then ""
    else
      var first := StrRepr(ks[0]) + ": " + (if ks[0] in fs.vals then Repr(fs.vals[ks[0]]) else "None");
      if |ks| == 1 then first else first + ", " + ReprFields(fs, ks[1..])
  }

  /** `str(v)`: a string is itself, every other value its `repr`. */
  function PyStr(v: Json): (r: string)
    ensures v.JStr? ==> r == v.s
    ensures v.JInt? ==> r == IntToString(v.n)
  {
    if v.JStr? then v.s else Repr(v)
  }

  /** `str(["it's"])` is `["it's"]`: the apostrophe makes `repr` quote with `"`. */
  lemma ApostropheInList()
    ensures PyStr(JArr([JStr("it's")])) == "[\"it's\"]"
  {
    var s := "it's";
    assert '\'' in s && '"' !in s by {
      assert s[2] == '\'';
    }
    assert Escaped("s", '"') == "s" by {
      assert "s"[1..] == "";
    }
    assert Escaped("'s", '"') == "'s" by {
      assert "'s"[1..] == "s";
    }
    assert Escaped("t's", '"') == "t's" by {
      assert "t's"[1..] == "'s";
    }
    assert Escaped(s, '"') == s by {
      assert s[1..] == "t's";
    }
  }
}
