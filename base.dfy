/** Values shared by the agents and the web layer: chat messages, the outcome of a
    call to the completion service, and Python-style string slicing. */
module Base {

  datatype Option<T> = None | Some(value: T)

  /** What a call to the completion service yields once its output is parsed:
      the parsed value, or a failure (network error, refused request, unparsable
      output).  The service itself is never modelled; every agent receives it as
      a function from the request it sends to such an outcome. */
  datatype Outcome<T> = Ok(value: T) | Failed

  /** One chat exchange as the front end sends it: a role ("user", "assistant", ...)
      and its text. */
  datatype Message = Message(role: string, content: string)

  function Min(a: int, b: int): int {
    if a <= b then a else b
  }

  /** Python's `s[:n]` for n >= 0: the first `min(n, |s|)` elements of `s`. */
  function Prefix<T>(s: seq<T>, n: nat): (r: seq<T>)
    ensures |r| == Min(n, |s|)
    ensures forall i :: 0 <= i < |r| ==> r[i] == s[i]
  {
    if |s| <= n then s else s[..n]
  }

  /** Python's `s[-n:]` for n > 0: the last `min(n, |s|)` elements of `s`. */
  function Last<T>(s: seq<T>, n: nat): (r: seq<T>)
    requires n > 0
    ensures |r| == Min(n, |s|)
    ensures forall i :: 0 <= i < |r| ==> r[i] == s[|s| - |r| + i]
  {
    if |s| <= n then s else s[|s| - n..]
  }

  /** `t` occurs in `s` starting at position `i`. */
  predicate OccursAt(s: string, t: string, i: nat) {
    i + |t| <= |s| && s[i..i + |t|] == t
  }

  lemma OccursAtShift(s: string, t: string)
    requires |s| > 0
    ensures forall i: nat :: OccursAt(s[1..], t, i) <==> OccursAt(s, t, i + 1)
  {
    forall i: nat
      ensures OccursAt(s[1..], t, i) <==> OccursAt(s, t, i + 1)
    {
      if i + |t| <= |s| - 1 {
        assert s[1..][i..i + |t|] == s[i + 1..i + 1 + |t|];
      }
    }
  }

  /** Python's substring test `t in s`. */
  function Contains(s: string, t: string): (r: bool)
    ensures r <==> exists i: nat :: OccursAt(s, t, i)
    decreases |s|
  {
    if |s| < |t| then
      assert forall i: nat :: !OccursAt(s, t, i);
      false
    else if s[..|t|] == t then
      assert OccursAt(s, t, 0);
      true
    else
      OccursAtShift(s, t);
      assert !OccursAt(s, t, 0);
      assert (exists i: nat :: OccursAt(s, t, i)) ==> exists j: nat :: OccursAt(s[1..], t, j) by {
        if exists i: nat :: OccursAt(s, t, i) {
          var i: nat :| OccursAt(s, t, i);
          assert i > 0;
          assert OccursAt(s[1..], t, i - 1);
        }
      }
      Contains(s[1..], t)
  }
}
