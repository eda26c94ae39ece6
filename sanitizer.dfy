/** The container-name sanitiser of the form backend.
 *
 *  Both the POST and the PUT handler turn the user's `name` into a container
 *  name with one global regular-expression replace: every code unit outside
 *  the class `[a-zA-Z0-9_.-]` becomes `_`. The expression has no `u` flag, so
 *  it works on UTF-16 code units, and a JavaScript string is modelled here as
 *  a sequence of them.
 */
module Sanitizer {

  /** One UTF-16 code unit. */
  newtype CodeUnit = x: int | 0 <= x < 0x1_0000

  /** A JavaScript string: a sequence of UTF-16 code units. */
  type JsString = seq<CodeUnit>

  /** The replacement the sanitiser writes for a disallowed code unit. */
  const Underscore: CodeUnit := '_' as CodeUnit

  /** Membership in the character class `[a-zA-Z0-9_.-]` (no `i` flag, so
      the letter ranges are taken literally; `.` and a trailing `-` are
      literal characters inside a class). */
  predicate Allowed(u: CodeUnit) {
    ('a' as CodeUnit <= u <= 'z' as CodeUnit) ||
    ('A' as CodeUnit <= u <= 'Z' as CodeUnit) ||
    ('0' as CodeUnit <= u <= '9' as CodeUnit) ||
    u == Underscore || u == '.' as CodeUnit || u == '-' as CodeUnit
  }

  /** Every code unit of `s` belongs to the class. */
  predicate AllAllowed(s: JsString) {
    forall i :: 0 <= i < |s| ==> Allowed(s[i])
  }

  /** What the replace does to a single code unit. */
  function SanitizeUnit(u: CodeUnit): CodeUnit {
    if Allowed(u) then u else Underscore
  }

  /** `name.replace(/[^a-zA-Z0-9_.-]/g, "_")`: the global replace visits the
      string from left to right and replaces each one-unit match by one `_`. */
  function Sanitize(s: JsString): (r: JsString)
    ensures |r| == |s|
  {
    if s == [] then [] else [SanitizeUnit(s[0])] + Sanitize(s[1..])
  }

  /** Position by position, an allowed code unit is copied and any other one
      becomes `_`. */
  lemma {:induction false} SanitizeAt(s: JsString, i: nat)
    requires i < |s|
    ensures Allowed(s[i]) ==> Sanitize(s)[i] == s[i]
    ensures !Allowed(s[i]) ==> Sanitize(s)[i] == Underscore
  {
    if i > 0 {
      SanitizeAt(s[1..], i - 1);
    }
  }

  /** The replace acts on each code unit independently, so it distributes
      over concatenation. */
  lemma {:induction false} SanitizeAppend(a: JsString, b: JsString)
    ensures Sanitize(a + b) == Sanitize(a) + Sanitize(b)
  {
    if a == [] {
      assert a + b == b;
    } else {
      assert (a + b)[1..] == a[1..] + b;
      SanitizeAppend(a[1..], b);
    }
  }

  /** Every code unit of the output lies in `[a-zA-Z0-9_.-]`. */
  lemma {:induction false} SanitizeOutputAllowed(s: JsString)
    ensures AllAllowed(Sanitize(s))
  {
    forall i | 0 <= i < |s|
      ensures Allowed(Sanitize(s)[i])
    {
      SanitizeAt(s, i);
    }
  }

  /** The name differs from its sanitised form exactly at the disallowed
      positions (a disallowed unit is never `_` itself). */
  lemma {:induction false} SanitizeDiffersExactlyAtDisallowed(s: JsString)
    ensures |Sanitize(s)| == |s|
    ensures forall i :: 0 <= i < |s| ==> (Sanitize(s)[i] != s[i] <==> !Allowed(s[i]))
  {
    forall i | 0 <= i < |s|
      ensures Sanitize(s)[i] != s[i] <==> !Allowed(s[i])
    {
      SanitizeAt(s, i);
    }
  }

  /** The fixed points of the sanitiser are exactly the names made only of
      allowed code units. */
  lemma {:induction false} SanitizeFixedPoints(s: JsString)
    ensures Sanitize(s) == s <==> AllAllowed(s)
  {
    SanitizeDiffersExactlyAtDisallowed(s);
    if AllAllowed(s) {
      assert forall i :: 0 <= i < |s| ==> Sanitize(s)[i] == s[i];
    }
  }

  /** Sanitising twice is the same as sanitising once. */
  lemma {:induction false} SanitizeIdempotent(s: JsString)
    ensures Sanitize(Sanitize(s)) == Sanitize(s)
  {
    SanitizeOutputAllowed(s);
    SanitizeFixedPoints(Sanitize(s));
  }

  /** Two different names can ask for the same container name: `a b` and
      `a/b` both become `a_b`. */
  lemma SanitizeNotInjective()
    ensures exists s, t :: s != t && Sanitize(s) == Sanitize(t)
  {
    var a, space, slash := 'a' as CodeUnit, ' ' as CodeUnit, '/' as CodeUnit;
    var s, t := [a, space, a], [a, slash, a];
    assert s[1] != t[1];
    SanitizeAppend([a], [space, a]);
    SanitizeAppend([space], [a]);
    SanitizeAppend([a], [slash, a]);
    SanitizeAppend([slash], [a]);
    assert Sanitize(s) == Sanitize(t);
  }
}
