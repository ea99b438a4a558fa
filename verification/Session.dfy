/**
 The cookie jar of src/linkedin/session.rs: newly issued cookies are folded in, a tombstone
 deletes its cookie, and a tombstone for the auth cookie is kept as the mark of a sign-out.
 */
module Session {
  import opened Common

  const LI_AT := "li_at"
  const JSESSIONID := "JSESSIONID"
  const TOMBSTONE := "delete me"

  type Jar = map<string, string>

  // ------------------------------------------------------------------------------ tombstones

  /** The Unicode White_Space characters. */
  predicate IsSpace(c: char) {
    var u := c as int;
    || 0x9 <= u <= 0xD || u == 0x20 || u == 0x85 || u == 0xA0 || u == 0x1680
    || 0x2000 <= u <= 0x200A || u == 0x2028 || u == 0x2029 || u == 0x202F || u == 0x205F || u == 0x3000
  }

  predicate IsQuote(c: char) {
    c == '\"'
  }

  function TrimStart(s: string, drop: char -> bool): string {
    if s != "" && drop(s[0]) then TrimStart(s[1..], drop) else s
  }

  function TrimEnd(s: string, drop: char -> bool): string {
    if s != "" && drop(s[|s| - 1]) then TrimEnd(s[..|s| - 1], drop) else s
  }

  function Trim(s: string, drop: char -> bool): string {
    TrimEnd(TrimStart(s, drop), drop)
  }

  /** `is_tombstone` */
  predicate IsTombstone(value: string) {
    Trim(Trim(value, IsSpace), IsQuote) == TOMBSTONE
  }

  ghost predicate All(s: string, p: char -> bool) {
    forall i :: 0 <= i < |s| ==> p(s[i])
  }

  /** Trimming takes a padding off each end, and what is left does not begin or end with it. */
  lemma {:induction false} TrimSplits(s: string, drop: char -> bool) returns (a: string, b: string)
    ensures s == a + Trim(s, drop) + b && All(a, drop) && All(b, drop)
  {
    a := StartSplits(s, drop);
    b := EndSplits(TrimStart(s, drop), drop);
  }

  lemma {:induction false} StartSplits(s: string, drop: char -> bool) returns (a: string)
    ensures s == a + TrimStart(s, drop) && All(a, drop)
  {
    if s != "" && drop(s[0]) {
      var a' := StartSplits(s[1..], drop);
      a := [s[0]] + a';
    } else {
      a := "";
    }
  }

  lemma {:induction false} EndSplits(s: string, drop: char -> bool) returns (b: string)
    ensures s == TrimEnd(s, drop) + b && All(b, drop)
  {
    if s != "" && drop(s[|s| - 1]) {
      var b' := EndSplits(s[..|s| - 1], drop);
      b := b' + [s[|s| - 1]];
    } else {
      b := "";
    }
  }

  lemma {:induction false} StartPadded(a: string, core: string, drop: char -> bool)
    requires All(a, drop) && core != "" && !drop(core[0])
    ensures TrimStart(a + core, drop) == core
  {
    if a == "" {
      assert a + core == core;
    } else {
      assert (a + core)[1..] == a[1..] + core;
      StartPadded(a[1..], core, drop);
    }
  }

  lemma {:induction false} EndPadded(core: string, b: string, drop: char -> bool)
    requires All(b, drop) && core != "" && !drop(core[|core| - 1])
    ensures TrimEnd(core + b, drop) == core
  {
    if b == "" {
      assert core + b == core;
    } else {
      assert (core + b)[..|core + b| - 1] == core + b[..|b| - 1];
      EndPadded(core, b[..|b| - 1], drop);
    }
  }

  lemma {:induction false} TrimPadded(a: string, core: string, b: string, drop: char -> bool)
    requires All(a, drop) && All(b, drop) && core != "" && !drop(core[0]) && !drop(core[|core| - 1])
    ensures Trim(a + core + b, drop) == core
  {
    assert a + core + b == a + (core + b);
    StartPadded(a, core + b, drop);
    EndPadded(core, b, drop);
  }

  /** The 25 code points with the Unicode property White_Space. */
  const WHITE_SPACE: set<int> := {
    0x9, 0xA, 0xB, 0xC, 0xD, 0x20, 0x85, 0xA0, 0x1680, 0x2000, 0x2001, 0x2002, 0x2003, 0x2004, 0x2005, 0x2006, 0x2007,
    0x2008, 0x2009, 0x200A, 0x2028, 0x2029, 0x202F, 0x205F, 0x3000
  }

  ghost predicate Blank(s: string) {
    forall i :: 0 <= i < |s| ==> s[i] as int in WHITE_SPACE
  }

  ghost predicate Quotes(s: string) {
    forall i :: 0 <= i < |s| ==> s[i] == '\"'
  }

  lemma {:induction false} BlankIff(s: string)
    ensures Blank(s) <==> All(s, IsSpace)
    ensures Quotes(s) <==> All(s, IsQuote)
  {
    forall i | 0 <= i < |s| ensures IsSpace(s[i]) <==> s[i] as int in WHITE_SPACE {
      SpaceIff(s[i]);
    }
  }

  lemma {:induction false} SpaceIff(c: char)
    ensures IsSpace(c) <==> c as int in WHITE_SPACE
  {
  }

  /** The padding of a tombstone: spaces outside, quotes inside, nothing else. */
  ghost predicate Padded(value: string, a: string, q: string, r: string, b: string) {
    value == a + (q + "delete me" + r) + b && Blank(a) && Quotes(q) && Quotes(r) && Blank(b)
  }

  /** A value is a tombstone exactly when it is the marker inside quotes inside white space. */
  lemma {:induction false} TombstoneIff(value: string)
    ensures IsTombstone(value) <==> exists a, q, r, b :: Padded(value, a, q, r, b)
  {
    hide IsSpace, IsQuote, Blank, Quotes;
    if IsTombstone(value) {
      var a, b := TrimSplits(value, IsSpace);
      var q, r := TrimSplits(Trim(value, IsSpace), IsQuote);
      BlankIff(a);
      BlankIff(b);
      BlankIff(q);
      BlankIff(r);
      assert Padded(value, a, q, r, b);
    }
    if a, q, r, b :| Padded(value, a, q, r, b) {
      BlankIff(a);
      BlankIff(b);
      BlankIff(q);
      BlankIff(r);
      PaddingTrimmed(a, q, r, b);
    }
  }

  lemma {:induction false} PaddingTrimmed(a: string, q: string, r: string, b: string)
    requires All(a, IsSpace) && All(q, IsQuote) && All(r, IsQuote) && All(b, IsSpace)
    ensures IsTombstone(a + (q + TOMBSTONE + r) + b)
  {
    var core := q + TOMBSTONE + r;
    assert core[0] == if q == "" then 'd' else q[0];
    assert core[|core| - 1] == if r == "" then 'e' else r[|r| - 1];
    TrimPadded(a, core, b, IsSpace);
    TrimPadded(q, TOMBSTONE, r, IsQuote);
  }

  lemma {:induction false} TombstoneFilled(value: string)
    requires IsTombstone(value)
    ensures value != ""
  {
  }

  lemma {:induction false} MarkerIsTombstone()
    ensures IsTombstone(TOMBSTONE)
  {
    TombstoneIff(TOMBSTONE);
    assert TOMBSTONE == "" + ("" + TOMBSTONE + "") + "";
    assert Padded(TOMBSTONE, "", "", "", "");
  }

  // ------------------------------------------------------------------------------ rotation

  function At(jar: Jar, name: string): Option<string> {
    if name in jar then Some(jar[name]) else None
  }

  /** What one cookie holds after one issued value. */
  function Issue(held: Option<string>, name: string, value: Option<string>): Option<string> {
    match value
    case None => held
    case Some(v) =>
      if v == "" then held
      else if IsTombstone(v) then if name == LI_AT then Some(v) else None
      else Some(v)
  }

  /** The jar in which every cookie is what `Issue` makes of it. */
  function Rotated(jar: Jar, issued: Jar): (r: Jar)
    ensures forall n :: At(r, n) == Issue(At(jar, n), n, At(issued, n))
  {
    map n | n in jar.Keys + issued.Keys && Issue(At(jar, n), n, At(issued, n)).Some? ::
      Issue(At(jar, n), n, At(issued, n)).value
  }

  lemma {:induction false} SameJar(a: Jar, b: Jar)
    requires forall n :: At(a, n) == At(b, n)
    ensures a == b
  {
    forall n ensures n in a <==> n in b {
      assert At(a, n) == At(b, n);
    }
    forall n | n in a ensures a[n] == b[n] {
      assert At(a, n) == At(b, n);
    }
  }

  predicate SignedOut(jar: Jar) {
    LI_AT in jar && IsTombstone(jar[LI_AT])
  }

  predicate IsUsable(jar: Jar) {
    LI_AT in jar && JSESSIONID in jar && !IsTombstone(jar[LI_AT])
  }

  lemma {:induction false} UsableNotSignedOut(jar: Jar)
    ensures IsUsable(jar) ==> !SignedOut(jar)
  {
  }

  class LinkedInSession {
    var cookies: Jar

    constructor (cookies: Jar)
      ensures this.cookies == cookies
    {
      this.cookies := cookies;
    }

    /** The map is walked in an arbitrary order; the result does not depend on it. */
    method MergeCookies(issued: Jar)
      modifies this
      ensures cookies == Rotated(old(cookies), issued)
    {
      hide IsTombstone, Rotated;
      var left := issued.Keys;
      while left != {}
        invariant left <= issued.Keys
        invariant forall n :: At(cookies, n) == if n in left then At(old(cookies), n) else Issue(At(old(cookies), n), n, At(issued, n))
      {
        ghost var before := cookies;
        var name :| name in left;
        var value := issued[name];
        left := left - {name};
        if value != "" {
          if IsTombstone(value) {
            cookies := cookies - {name};
            if name == LI_AT {
              cookies := cookies[LI_AT := value];
            }
          } else {
            cookies := cookies[name := value];
          }
        }
        assert At(cookies, name) == Issue(At(before, name), name, At(issued, name));
        assert forall n :: n != name ==> At(cookies, n) == At(before, n);
      }
      SameJar(cookies, Rotated(old(cookies), issued));
    }
  }

  // ------------------------------------------------------------------------------ runs

  /** The jar after any number of rotations. */
  function After(jar: Jar, rotations: seq<Jar>): Jar {
    if rotations == [] then jar
    else Rotated(After(jar, rotations[..|rotations| - 1]), rotations[|rotations| - 1])
  }

  /** One rotation with the last non-empty value of each. */
  function Override(a: Jar, b: Jar): (r: Jar)
    ensures forall n :: At(r, n) == if n in b && b[n] != "" then Some(b[n]) else At(a, n)
  {
    map n | n in a.Keys + b.Keys && (n in a || b[n] != "") :: if n in b && b[n] != "" then b[n] else a[n]
  }

  /** Two rotations are one rotation by their last non-empty override. */
  lemma {:induction false} RotateTwice(jar: Jar, a: Jar, b: Jar)
    ensures Rotated(Rotated(jar, a), b) == Rotated(jar, Override(a, b))
  {
    hide IsTombstone, Rotated, Override;
    forall n ensures At(Rotated(Rotated(jar, a), b), n) == At(Rotated(jar, Override(a, b)), n) {
      assert At(Rotated(jar, a), n) == Issue(At(jar, n), n, At(a, n));
    }
    SameJar(Rotated(Rotated(jar, a), b), Rotated(jar, Override(a, b)));
  }

  /** The last non-empty value issued for a cookie, found by a scan from the end. */
  function LastIssued(rotations: seq<Jar>, name: string): Option<string> {
    if rotations == [] then None
    else
      var last := rotations[|rotations| - 1];
      if name in last && last[name] != "" then Some(last[name]) else LastIssued(rotations[..|rotations| - 1], name)
  }

  lemma {:induction false} LastIssuedFilled(rotations: seq<Jar>, name: string)
    ensures LastIssued(rotations, name) != Some("")
  {
    if rotations != [] {
      LastIssuedFilled(rotations[..|rotations| - 1], name);
    }
  }

  /** After any run every cookie depends on nothing but its own last non-empty value. */
  lemma {:induction false} AfterRun(jar: Jar, rotations: seq<Jar>, name: string)
    ensures At(After(jar, rotations), name) == Issue(At(jar, name), name, LastIssued(rotations, name))
  {
    hide IsTombstone, Rotated;
    if rotations != [] {
      AfterRun(jar, rotations[..|rotations| - 1], name);
    }
  }

  /**
   What a cookie holds after any run: its last non-empty value as it was issued; nothing, if that is a
   tombstone of any cookie but the auth cookie; what it held before, if there was none.
   */
  lemma {:induction false} HoldsLast(jar: Jar, rotations: seq<Jar>, name: string)
    ensures var after := After(jar, rotations);
            match LastIssued(rotations, name)
            case None => (name in after <==> name in jar) && (name in jar ==> after[name] == jar[name])
            case Some(v) =>
              && (IsTombstone(v) && name != "li_at" ==> name !in after)
              && (!IsTombstone(v) || name == "li_at" ==> name in after && after[name] == v)
  {
    hide IsTombstone, LastIssued;
    AfterRun(jar, rotations, name);
    LastIssuedFilled(rotations, name);
  }

  /** Signed out exactly when the last non-empty auth cookie is a tombstone; the first jar decides if there is none. */
  lemma {:induction false} SignedOutIff(jar: Jar, rotations: seq<Jar>)
    ensures SignedOut(After(jar, rotations)) <==>
            match LastIssued(rotations, LI_AT)
            case None => "li_at" in jar && IsTombstone(jar["li_at"])
            case Some(v) => IsTombstone(v)
  {
    hide IsTombstone, LastIssued;
    AfterRun(jar, rotations, LI_AT);
    LastIssuedFilled(rotations, LI_AT);
  }

  /** Usable exactly when both cookies were last given a live value. */
  lemma {:induction false} UsableIff(jar: Jar, rotations: seq<Jar>)
    ensures IsUsable(After(jar, rotations)) <==>
            && (match LastIssued(rotations, LI_AT)
                case None => LI_AT in jar && !IsTombstone(jar[LI_AT])
                case Some(v) => !IsTombstone(v))
            && (match LastIssued(rotations, JSESSIONID)
                case None => "JSESSIONID" in jar
                case Some(v) => !IsTombstone(v))
  {
    hide IsTombstone, LastIssued;
    AfterRun(jar, rotations, LI_AT);
    LastIssuedFilled(rotations, LI_AT);
    AfterRun(jar, rotations, JSESSIONID);
    LastIssuedFilled(rotations, JSESSIONID);
    assert JSESSIONID[0] != LI_AT[0];
  }

  /** No cookie but the auth cookie is ever left holding a tombstone. */
  ghost predicate Clean(jar: Jar) {
    forall n :: n in jar && n != LI_AT ==> !IsTombstone(jar[n])
  }

  lemma {:induction false} StaysClean(jar: Jar, rotations: seq<Jar>)
    requires Clean(jar)
    ensures Clean(After(jar, rotations))
  {
    hide IsTombstone, LastIssued;
    forall n | n in After(jar, rotations) && n != LI_AT ensures !IsTombstone(After(jar, rotations)[n]) {
      AfterRun(jar, rotations, n);
      LastIssuedFilled(rotations, n);
    }
  }
}
