/** The order of strings by code point: Python's `<` on strings and the order of record ids. */
module Lexicographic {

  predicate Less(s: string, t: string) {
    t != "" && (s == "" || s[0] < t[0] || (s[0] == t[0] && Less(s[1..], t[1..])))
  }

  lemma {:induction false} LessTransitive(s: string, t: string, u: string)
    requires Less(s, t) && Less(t, u)
    ensures Less(s, u)
  {
    if s != "" && s[0] == t[0] && t[0] == u[0] {
      LessTransitive(s[1..], t[1..], u[1..]);
    }
  }

  lemma {:induction false} LessIrreflexive(s: string)
    ensures !Less(s, s)
  {
    if s != "" { LessIrreflexive(s[1..]); }
  }

  lemma {:induction false} LessTotal(s: string, t: string)
    ensures Less(s, t) || s == t || Less(t, s)
    ensures Less(s, t) ==> !Less(t, s)
  {
    if s != "" && t != "" {
      LessTotal(s[1..], t[1..]);
      assert s == [s[0]] + s[1..] && t == [t[0]] + t[1..];
    }
  }

  /** The texts agree before k, and there the first one ends or has the smaller character. */
  predicate SmallerAt(s: string, t: string, k: nat) {
    k <= |s| && k < |t| && s[..k] == t[..k] && (k == |s| || s[k] < t[k])
  }

  /** Which text is less is decided at the first place where the two differ. */
  lemma {:induction false} LessExactlyWhen(s: string, t: string)
    ensures Less(s, t) <==> exists k: nat :: SmallerAt(s, t, k)
  {
    if s == "" && t != "" {
      assert SmallerAt(s, t, 0);
    } else if s != "" && t != "" {
      LessExactlyWhen(s[1..], t[1..]);
      if s[0] < t[0] { assert SmallerAt(s, t, 0); }
      if s[0] == t[0] {
        if k: nat :| SmallerAt(s[1..], t[1..], k) {
          assert s[..k + 1] == [s[0]] + s[1..][..k] && t[..k + 1] == [t[0]] + t[1..][..k];
          assert SmallerAt(s, t, k + 1);
        }
        if k: nat :| SmallerAt(s, t, k) {
          assert k > 0;
          assert s[1..][..k - 1] == s[..k][1..] && t[1..][..k - 1] == t[..k][1..];
          assert SmallerAt(s[1..], t[1..], k - 1);
        }
      } else if k: nat :| SmallerAt(s, t, k) {
        assert k > 0 ==> s[..k][0] == t[..k][0];
      }
    }
  }
}
