/** The few C-level notions the launcher's argument code relies on. */
module CTypes {

  datatype Option<T> = None | Some(value: T)

  /** A C string as the characters before its terminating NUL. */
  type CString = s: string | '\0' !in s

  /** The range of C's `int32_t`. */
  type Int32 = x: int | -0x8000_0000 <= x < 0x8000_0000

  /** `strchr`: the index of the first `c` in `s`, or `|s|` when there is none. */
  function FirstIndex(s: string, c: char): (k: nat)
    ensures k <= |s|
    ensures k < |s| ==> s[k] == c
    ensures forall j :: 0 <= j < k ==> s[j] != c
    ensures k == |s| <==> c !in s
  {
    if s == [] then 0
    else if s[0] == c then 0
    else 1 + FirstIndex(s[1..], c)
  }

  /** The first `c` of `u + [c] + v` is the one after `u` when `u` holds none. */
  lemma FirstIndexOfCut(u: string, c: char, v: string)
    requires c !in u
    ensures FirstIndex(u + [c] + v, c) == |u|
  {
    var w := u + [c] + v;
    var k := FirstIndex(w, c);
    assert w[|u|] == c;
  }
}
