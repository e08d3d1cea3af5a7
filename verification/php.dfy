/**
 * PHP values as the plugin handles them (option values, request parameters,
 * token arrays, response bodies) and the few language rules it relies on:
 * `empty()`, reading `$a[$k]` under `empty`/`isset`/`??`, `array_key_exists`,
 * and the array write `$a[$k] = $v`.
 */
module Php {

  datatype Option<+T> = None | Some(value: T) {
    /** `$x ?? $default` for a value that is either there or not. */
    function GetOr(default: T): T {
      if Some? then value else default
    }
  }

  /**
   * A PHP value. An array is an ordered map; its keys are kept as strings
   * (an integer key stands for its decimal spelling). Floats and objects do
   * not reach the modelled code paths.
   */
  datatype Value =
    | Null
    | Bool(b: bool)
    | Int(i: int)
    | Str(s: string)
    | Arr(entries: Entries)

  type Entries = seq<(string, Value)>

  /** `empty()` on a string: the empty string and "0" are both empty. */
  predicate EmptyString(s: string) {
    s == "" || s == "0"
  }

  /** `empty($v)`, which is also `!$v` (the test behind `?:`). */
  predicate IsEmpty(v: Value) {
    match v
    case Null => true
    case Bool(b) => !b
    case Int(i) => i == 0
    case Str(s) => EmptyString(s)
    case Arr(e) => |e| == 0
  }

  /** The keys of an array, in order. */
  function Keys(e: Entries): (ks: seq<string>)
    ensures |ks| == |e|
    ensures forall i :: 0 <= i < |e| ==> ks[i] == e[i].0
  {
    seq(|e|, i requires 0 <= i < |e| => e[i].0)
  }

  /** No key occurs twice, as in every array PHP builds. */
  predicate DistinctKeys(e: Entries) {
    forall i, j :: 0 <= i < j < |e| ==> e[i].0 != e[j].0
  }

  /** Position of the first entry with key `k`. */
  function IndexOf(e: Entries, k: string): (i: nat)
    requires k in Keys(e)
    ensures i < |e| && e[i].0 == k
    ensures forall j :: 0 <= j < i ==> e[j].0 != k
  {
    if e[0].0 == k then 0
    else
      assert k in Keys(e[1..]) by {
        var j :| 0 <= j < |e| && Keys(e)[j] == k;
        assert Keys(e[1..])[j - 1] == k;
      }
      1 + IndexOf(e[1..], k)
  }

  /** `array_key_exists($k, $e)`: true even when the value stored is null. */
  predicate KeyExists(e: Entries, k: string) {
    k in Keys(e)
  }

  /**
   * Reading `$v[$k]` inside `empty()`, `isset()` or `??`: null when `$v` is
   * not an array or has no key `k`, never an error.
   */
  function Index(v: Value, k: string): (r: Value)
    ensures v.Arr? && k in Keys(v.entries) ==> r == v.entries[IndexOf(v.entries, k)].1
    ensures !v.Arr? || k !in Keys(v.entries) ==> r == Null
  {
    if v.Arr? && k in Keys(v.entries) then v.entries[IndexOf(v.entries, k)].1 else Null
  }

  /** `isset($v[$k])`: the key is there and its value is not null. */
  predicate IsSet(v: Value, k: string) {
    !Index(v, k).Null?
  }

  /**
   * `$e[$k] = $v`: an existing key keeps its place and takes the new value,
   * a new key is appended at the end.
   */
  function Put(e: Entries, k: string, v: Value): (r: Entries)
    ensures k in Keys(e) ==> r == e[IndexOf(e, k) := (k, v)]
    ensures k !in Keys(e) ==> r == e + [(k, v)]
  {
    if k in Keys(e) then e[IndexOf(e, k) := (k, v)] else e + [(k, v)]
  }

  /** After `$e[$k] = $v`, reading `$e[$k]` gives `v`. */
  lemma PutThenIndex(e: Entries, k: string, v: Value)
    ensures Index(Arr(Put(e, k, v)), k) == v
  {
    var r := Put(e, k, v);
    if k in Keys(e) {
      var p := IndexOf(e, k);
      assert Keys(r)[p] == k;
      assert IndexOf(r, k) == p by {
        forall j | 0 <= j < p ensures r[j].0 != k { assert r[j] == e[j]; }
      }
    } else {
      assert Keys(r)[|e|] == k;
      assert IndexOf(r, k) == |e| by {
        forall j | 0 <= j < |e| ensures r[j].0 != k { assert Keys(e)[j] == r[j].0; }
      }
    }
  }

  /** After `$e[$k] = $v`, reading any other key gives what it gave before. */
  lemma PutKeepsOtherKeys(e: Entries, k: string, v: Value, other: string)
    requires other != k
    ensures Index(Arr(Put(e, k, v)), other) == Index(Arr(e), other)
  {
    var r := Put(e, k, v);
    PutKeys(e, k, v);
    assert forall j :: 0 <= j < |e| ==> r[j].0 == e[j].0;
    if other in Keys(e) {
      var q := IndexOf(e, other);
      assert r[q] == e[q];
      assert Keys(r)[q] == other;
      assert IndexOf(r, other) == q by {
        forall j | 0 <= j < q ensures r[j].0 != other { assert r[j].0 == e[j].0; }
      }
    }
  }

  lemma PutKeepsKeysDistinct(e: Entries, k: string, v: Value)
    requires DistinctKeys(e)
    ensures DistinctKeys(Put(e, k, v))
    ensures Index(Arr(Put(e, k, v)), k) == v
    ensures k in Keys(Put(e, k, v))
  {
    var r := Put(e, k, v);
    if k in Keys(e) {
      var p := IndexOf(e, k);
      assert IndexOf(r, k) == p by {
        assert r[p].0 == k;
        forall j | 0 <= j < p ensures r[j].0 != k { assert r[j] == e[j]; }
      }
    } else {
      assert Keys(r)[|e|] == k;
    }
  }

  lemma PutKeys(e: Entries, k: string, v: Value)
    ensures forall k' :: k' in Keys(Put(e, k, v)) <==> k' in Keys(e) || k' == k
  {
    var r := Put(e, k, v);
    if k in Keys(e) {
      var p := IndexOf(e, k);
      forall k' ensures k' in Keys(r) <==> k' in Keys(e) {
        if k' in Keys(e) {
          var i :| 0 <= i < |e| && Keys(e)[i] == k';
          assert Keys(r)[i] == k';
        }
        if k' in Keys(r) {
          var i :| 0 <= i < |r| && Keys(r)[i] == k';
          assert Keys(e)[i] == k';
        }
      }
    } else {
      assert Keys(r) == Keys(e) + [k];
    }
  }

  /** `(string) $v` for the scalars; an array would be "Array". */
  function ToStr(v: Value): string {
    match v
    case Null => ""
    case Bool(b) => if b then "1" else ""
    case Int(i) => Decimal(i)
    case Str(s) => s
    case Arr(_) => "Array"
  }

  /** Decimal spelling of an integer, as PHP prints it. */
  function Decimal(n: int): string {
    if n < 0 then "-" + Digits(-n) else Digits(n)
  }

  function Digits(n: nat): string
    decreases n
  {
    var d := ['0', '1', '2', '3', '4', '5', '6', '7', '8', '9'][n % 10];
    if n < 10 then [d] else Digits(n / 10) + [d]
  }

  function Abs(n: int): nat {
    if n < 0 then -n else n
  }
}
