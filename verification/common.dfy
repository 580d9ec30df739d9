/** Shared vocabulary: an optional value for pandas' NaN / Python's None, the
    Python built-ins the scripts lean on (slicing with negative indices,
    `int()` on a float, `str.replace`, ASCII `upper`/`lower`, `in` on strings). */
module Common {

  /** `None` stands for a Python `None` or a pandas NaN. */
  datatype Option<+T> = None | Some(value: T)

  /** Python's `int(x)` on a float: truncation toward zero. */
  function TruncToInt(x: real): (r: int)
    ensures 0.0 <= x ==> r as real <= x < r as real + 1.0
    ensures x < 0.0 ==> r as real - 1.0 < x <= r as real
  {
    if 0.0 <= x then x.Floor else -((-x).Floor)
  }

  /** `s[:stop]` with Python's clamping and negative-index convention. */
  function SliceTo<T>(s: seq<T>, stop: int): (r: seq<T>)
    ensures 0 <= stop ==> r == s[..if stop < |s| then stop else |s|]
    ensures stop < 0 ==> r == s[..if |s| + stop < 0 then 0 else |s| + stop]
  {
    var k := if stop < 0 then |s| + stop else stop;
    var k' := if k < 0 then 0 else if k > |s| then |s| else k;
    s[..k']
  }

  /** `s[start:]` with Python's clamping and negative-index convention. */
  function SliceFrom<T>(s: seq<T>, start: int): (r: seq<T>)
    ensures 0 <= start ==> r == s[if start < |s| then start else |s|..]
    ensures start < 0 ==> r == s[if |s| + start < 0 then 0 else |s| + start..]
  {
    var k := if start < 0 then |s| + start else start;
    var k' := if k < 0 then 0 else if k > |s| then |s| else k;
    s[k'..]
  }

  function Min(a: int, b: int): int { if a <= b then a else b }

  function Max(a: int, b: int): int { if a <= b then b else a }

  /** `str.replace(a, b)` for single characters. */
  function ReplaceChar(s: string, a: char, b: char): (r: string)
    ensures |r| == |s|
    ensures forall i :: 0 <= i < |s| ==> r[i] == (if s[i] == a then b else s[i])
  {
    seq(|s|, i requires 0 <= i < |s| => if s[i] == a then b else s[i])
  }

  function UpperChar(c: char): char
  {
    if 'a' <= c <= 'z' then (c as int - 'a' as int + 'A' as int) as char else c
  }

  function LowerChar(c: char): char
  {
    if 'A' <= c <= 'Z' then (c as int - 'A' as int + 'a' as int) as char else c
  }

  /** `str.upper()` restricted to ASCII letters. */
  function Upper(s: string): (r: string)
    ensures |r| == |s|
    ensures forall i :: 0 <= i < |s| ==> r[i] == UpperChar(s[i])
  {
    seq(|s|, i requires 0 <= i < |s| => UpperChar(s[i]))
  }

  /** `str.lower()` restricted to ASCII letters. */
  function Lower(s: string): (r: string)
    ensures |r| == |s|
    ensures forall i :: 0 <= i < |s| ==> r[i] == LowerChar(s[i])
  {
    seq(|s|, i requires 0 <= i < |s| => LowerChar(s[i]))
  }

  predicate EndsWith(s: string, suffix: string)
  {
    |suffix| <= |s| && s[|s| - |suffix|..] == suffix
  }

  /** `"__" in s`, position by position. */
  predicate HasDoubleUnderscoreAt(s: string, k: int)
  {
    0 <= k && k + 1 < |s| && s[k] == '_' && s[k + 1] == '_'
  }

  /** Index of the first `"__"` in `s`, searching from `from`. */
  function FindDoubleUnderscore(s: string, from: nat): (r: Option<nat>)
    ensures r.Some? ==> from <= r.value && HasDoubleUnderscoreAt(s, r.value)
    ensures r.Some? ==> forall k :: from <= k < r.value ==> !HasDoubleUnderscoreAt(s, k)
    ensures r.None? ==> forall k :: from <= k ==> !HasDoubleUnderscoreAt(s, k)
    decreases |s| - from
  {
    if from + 1 >= |s| then None
    else if s[from] == '_' && s[from + 1] == '_' then Some(from)
    else FindDoubleUnderscore(s, from + 1)
  }
}
