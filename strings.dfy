/** Option values, and the two string built-ins the webview relies on:
    `String.prototype.includes` and `String.prototype.replace` with a
    literal, non-global pattern (which replaces the leftmost match only). */
module Strings {

  datatype Option<+T> = None | Some(value: T)

  /** `p` occurs in `s` starting at position `j`. */
  predicate OccursAt(s: string, p: string, j: int)
  {
    0 <= j && j + |p| <= |s| && s[j..j + |p|] == p
  }

  /** Leftmost position at which `p` occurs in `s`, if any. */
  function IndexOf(s: string, p: string): (r: Option<nat>)
    ensures r.Some? ==> OccursAt(s, p, r.value)
    ensures r.Some? ==> forall j :: 0 <= j < r.value ==> !OccursAt(s, p, j)
    ensures r.None? ==> forall j :: !OccursAt(s, p, j)
    decreases |s|
  {
    if |p| > |s| then None
    else if s[..|p|] == p then Some(0)
    else
      match IndexOf(s[1..], p)
      case None =>
        assert forall j :: OccursAt(s, p, j) && j > 0 ==> OccursAt(s[1..], p, j - 1);
        None
      case Some(k) =>
        assert forall j :: 0 < j <= k ==> (OccursAt(s, p, j) ==> OccursAt(s[1..], p, j - 1));
        assert s[1..][k..k + |p|] == s[k + 1..k + 1 + |p|];
        Some(k + 1)
  }

  /** JavaScript's `s.includes(p)`. */
  function Includes(s: string, p: string): bool
  {
    IndexOf(s, p).Some?
  }

  /** JavaScript's `s.replace(/p/, '')` for a pattern `p` with no regular
      expression metacharacters left unescaped: the leftmost occurrence of
      `p` is removed, and a string without `p` comes back unchanged. */
  function RemoveFirst(s: string, p: string): string
  {
    match IndexOf(s, p)
    case None => s
    case Some(i) => s[..i] + s[i + |p|..]
  }

  /** `includes` holds exactly when the pattern occurs somewhere. */
  lemma IncludesIffOccurs(s: string, p: string)
    ensures Includes(s, p) <==> exists j :: OccursAt(s, p, j)
  {
  }

  /** Removing a pattern that is absent changes nothing; removing a present
      one shortens the string by exactly the pattern's length, and what is
      left is the text before the first occurrence followed by the text
      after it. */
  lemma RemoveFirstShape(s: string, p: string)
    ensures !Includes(s, p) ==> RemoveFirst(s, p) == s
    ensures Includes(s, p) ==> |RemoveFirst(s, p)| == |s| - |p|
    ensures Includes(s, p) ==>
      exists i :: && OccursAt(s, p, i)
                  && (forall j :: 0 <= j < i ==> !OccursAt(s, p, j))
                  && RemoveFirst(s, p) == s[..i] + s[i + |p|..]
  {
  }

  /** Stripping a prefix from a string that starts with it gives back the
      rest: `(p + d).replace(p, '') == d`, whatever `d` holds (even another
      copy of `p`). */
  lemma RemoveFirstOfPrefixed(p: string, d: string)
    ensures Includes(p + d, p)
    ensures RemoveFirst(p + d, p) == d
  {
  }

  /** A string that contains a pattern contains every piece of it. */
  lemma {:induction false} IncludesPart(s: string, p: string, q: string)
    requires Includes(s, p)
    requires exists k :: OccursAt(p, q, k)
    ensures Includes(s, q)
  {
    var i := IndexOf(s, p).value;
    var k :| OccursAt(p, q, k);
    assert s[i..i + |p|][k..k + |q|] == s[i + k..i + k + |q|];
    assert OccursAt(s, q, i + k);
  }

  /** A pattern whose first character appears nowhere in a string, or only
      where the rest of the pattern fails to follow, is absent from it. */
  lemma AbsentFromPrefixed(p: string, d: string, q: string)
    requires |q| > 0
    requires forall j :: 0 <= j < |p| && p[j] == q[0] ==>
      exists k :: 0 < k < |q| && j + k < |p| && p[j + k] != q[k]
    requires !Includes(d, q)
    ensures !Includes(p + d, q)
  {
    var s := p + d;
    forall i | 0 <= i < |p| ensures !OccursAt(s, q, i) {
      if s[i] == q[0] {
        var k :| 0 < k < |q| && i + k < |p| && p[i + k] != q[k];
        assert s[i + k] != q[k];
      }
    }
    forall i | |p| <= i ensures !OccursAt(s, q, i) {
      assert !OccursAt(d, q, i - |p|);
      if i + |q| <= |s| {
        assert s[i..i + |q|] == d[i - |p|..i - |p| + |q|];
      }
    }
  }
}
