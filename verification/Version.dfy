/** Version names: printing, parsing and comparing. */
module Version {
  import opened Decimal

  datatype Version = Version(major: int, minor: int, patch: int, commit: string, preId: string, preVersion: int)

  const ZERO := Version(0, 0, 0, "", "", 0)

  // ----- Strings -----

  function Text(n: int): string { if n < 0 then "-" + ToString(-n) else ToString(n) }

  function IndexOf(s: string, c: char): (i: nat)
    ensures i <= |s| && c !in s[..i] && (i < |s| ==> s[i] == c) && (i == |s| <==> c !in s)
  {
    if s == [] then 0
    else if s[0] == c then 0
    else
      var i := IndexOf(s[1..], c);
      assert s[..i + 1] == [s[0]] + s[1..][..i];
      assert s == [s[0]] + s[1..];
      1 + i
  }

  /** strings.Split on one character. */
  function Split(s: string, c: char): (parts: seq<string>)
    ensures |parts| >= 1 && (c in s ==> |parts| >= 2)
  {
    var i := IndexOf(s, c);
    if i == |s| then [s] else [s[..i]] + Split(s[i + 1..], c)
  }

  /** Every piece is free of the separator and made of characters of the whole. */
  lemma {:induction false} PiecesAreClean(s: string, c: char, k: nat)
    requires k < |Split(s, c)|
    ensures c !in Split(s, c)[k] && forall x :: x in Split(s, c)[k] ==> x in s
  {
    var i := IndexOf(s, c);
    if i < |s| && k > 0 {
      PiecesAreClean(s[i + 1..], c, k - 1);
    }
  }

  lemma SplitWhole(s: string, c: char)
    requires c !in s
    ensures Split(s, c) == [s]
  {
  }

  lemma SplitFirst(a: string, c: char, b: string)
    requires c !in a
    ensures Split(a + [c] + b, c) == [a] + Split(b, c)
  {
    var s := a + [c] + b;
    var i := IndexOf(s, c);
    assert s[|a|] == c;
    assert forall k :: 0 <= k < |a| ==> s[k] == a[k];
    assert forall k :: 0 <= k < i ==> s[..i][k] == s[k];
    assert i == |a|;
    assert s[..i] == a && s[i + 1..] == b;
  }

  predicate HasPrefix(s: string, p: string) { p <= s }

  // ----- Printing -----

  function VersionString(v: Version): string { Text(v.major) + "." + Text(v.minor) + "." + Text(v.patch) }

  function String(v: Version): string {
    VersionString(v) + if v.preId != "" then "-" + v.preId + "." + Text(v.preVersion) else ""
  }

  function BadString(v: Version): string {
    Text(v.major) + "." + Text(v.minor) + (if v.patch > 0 then "." + Text(v.patch) else "") +
    if v.preId != "" then "-" + v.preId + (if v.preVersion > 0 then Text(v.preVersion) else "") else ""
  }

  // ----- Parsing -----

  /** The part after the first '-'. */
  function ParsePre(identifier: string): Version {
    if '.' in identifier then
      var parts := Split(identifier, '.');
      ZERO.(preId := parts[0], preVersion := Atoi(parts[1]))
    else if HasPrefix(identifier, "alpha") then ZERO.(preId := "alpha", preVersion := Atoi(identifier[5..]))
    else if HasPrefix(identifier, "beta") then ZERO.(preId := "beta", preVersion := Atoi(identifier[4..]))
    else ZERO.(commit := identifier)
  }

  function ParseCore(core: string, v: Version): Version {
    var e := Split(core, '.');
    v.(major := Atoi(e[0]), minor := if |e| >= 2 then Atoi(e[1]) else 0, patch := if |e| >= 3 then Atoi(e[2]) else 0)
  }

  function Parse(name: string): Version {
    var s := if HasPrefix(name, "v") then name[1..] else name;
    if '-' in s then
      var parts := Split(s, '-');
      ParseCore(parts[0], ParsePre(parts[1]))
    else ParseCore(s, ZERO)
  }

  // ----- Round trips -----

  predicate InRange(v: Version) {
    0 <= v.major <= MAX_INT && 0 <= v.minor <= MAX_INT && 0 <= v.patch <= MAX_INT && 0 <= v.preVersion <= MAX_INT
  }

  /** Free of the two separators. */
  predicate Plain(s: string) { '-' !in s && '.' !in s }

  lemma NumeralsArePlain(n: nat)
    ensures Plain(ToString(n)) && ToString(n)[0] != 'v'
  {
    var s := ToString(n);
    assert AllDigits(s);
    assert forall x :: x in s ==> IsDigit(x);
    assert IsDigit(s[0]);
  }

  lemma SplitThree(x: string, y: string, z: string)
    requires '.' !in x && '.' !in y && '.' !in z
    ensures Split(x + "." + y + "." + z, '.') == [x, y, z]
  {
    assert x + "." + y + "." + z == x + ['.'] + (y + ['.'] + z);
    SplitFirst(x, '.', y + ['.'] + z);
    SplitFirst(y, '.', z);
    SplitWhole(z, '.');
    assert [x] + ([y] + [z]) == [x, y, z];
  }

  lemma CoreParses(a: nat, b: nat, c: nat, v: Version)
    requires a <= MAX_INT && b <= MAX_INT && c <= MAX_INT
    ensures ParseCore(ToString(a) + "." + ToString(b) + "." + ToString(c), v) == v.(major := a, minor := b, patch := c)
  {
    NumeralsArePlain(a); NumeralsArePlain(b); NumeralsArePlain(c);
    SplitThree(ToString(a), ToString(b), ToString(c));
    AtoiOfToString(a); AtoiOfToString(b); AtoiOfToString(c);
  }

  lemma ShortCoreParses(a: nat, b: nat, v: Version)
    requires a <= MAX_INT && b <= MAX_INT
    ensures ParseCore(ToString(a) + "." + ToString(b), v) == v.(major := a, minor := b, patch := 0)
  {
    var x, y := ToString(a), ToString(b);
    NumeralsArePlain(a); NumeralsArePlain(b);
    AtoiOfToString(a); AtoiOfToString(b);
    assert x + "." + y == x + ['.'] + y;
    SplitFirst(x, '.', y);
    SplitWhole(y, '.');
    assert Split(x + "." + y, '.') == [x] + [y];
  }

  /** A name made of a core and a '-'-free tail is taken apart at the '-'. */
  lemma ParseJoined(core: string, tail: string)
    requires '-' !in core && '-' !in tail && core != [] && core[0] != 'v'
    ensures Parse(core + "-" + tail) == ParseCore(core, ParsePre(tail)) && Parse(core) == ParseCore(core, ZERO)
  {
    var name := core + "-" + tail;
    assert name[0] == core[0];
    assert !HasPrefix(name, "v") && !HasPrefix(core, "v");
    assert name == core + ['-'] + tail;
    SplitFirst(core, '-', tail);
    SplitWhole(tail, '-');
    assert name[|core|] == '-';
    assert Split(name, '-') == [core] + [tail];
  }

  lemma CoreHasNoDash(v: Version)
    requires InRange(v)
    ensures '-' !in VersionString(v) && VersionString(v) != [] && VersionString(v)[0] != 'v'
  {
    NumeralsArePlain(v.major); NumeralsArePlain(v.minor); NumeralsArePlain(v.patch);
    assert VersionString(v)[0] == ToString(v.major)[0];
  }

  /** What String keeps of a version whose identifier is plain. */
  lemma ParseOfString(v: Version)
    requires InRange(v) && Plain(v.preId)
    ensures Parse(String(v)) == v.(commit := "", preVersion := if v.preId == "" then 0 else v.preVersion)
  {
    var core := VersionString(v);
    CoreHasNoDash(v);
    if v.preId == "" {
      assert String(v) == core;
      ParseJoined(core, "");
      CoreParses(v.major, v.minor, v.patch, ZERO);
    } else {
      var tail := v.preId + "." + ToString(v.preVersion);
      assert String(v) == core + "-" + tail;
      DottedTailParses(v.preId, v.preVersion);
      ParseJoined(core, tail);
      CoreParses(v.major, v.minor, v.patch, ParsePre(tail));
    }
  }

  lemma DottedTailParses(id: string, number: nat)
    requires Plain(id) && number <= MAX_INT
    ensures var tail := id + "." + ToString(number);
            '-' !in tail && ParsePre(tail) == ZERO.(preId := id, preVersion := number)
  {
    var n := ToString(number);
    var tail := id + "." + n;
    NumeralsArePlain(number);
    AtoiOfToString(number);
    assert tail == id + ['.'] + n;
    assert tail[|id|] == '.';
    SplitFirst(id, '.', n);
    SplitWhole(n, '.');
    assert Split(tail, '.') == [id] + [n];
  }

  lemma ParsePreIsPlain(identifier: string)
    requires '-' !in identifier
    ensures Plain(ParsePre(identifier).preId)
  {
    if '.' in identifier { PiecesAreClean(identifier, '.', 0); }
  }

  /** Whatever is parsed, the pre-release identifier is plain. */
  lemma ParsedIdIsPlain(name: string)
    ensures Plain(Parse(name).preId)
  {
    var s := if HasPrefix(name, "v") then name[1..] else name;
    if '-' in s {
      var parts := Split(s, '-');
      PiecesAreClean(s, '-', 1);
      ParsePreIsPlain(parts[1]);
      assert Parse(name) == ParseCore(parts[0], ParsePre(parts[1]));
    } else {
      assert Parse(name) == ParseCore(s, ZERO);
    }
  }

  /** Among in-range versions, String round-trips exactly those with no commit, a plain identifier,
      and no pre-release number without an identifier. */
  lemma StringRoundTripsExactly(v: Version)
    requires InRange(v)
    ensures Parse(String(v)) == v <==> v.commit == "" && Plain(v.preId) && (v.preId == "" ==> v.preVersion == 0)
  {
    if Plain(v.preId) {
      ParseOfString(v);
    } else {
      ParsedIdIsPlain(String(v));
    }
  }

  lemma BadCore(v: Version, pre: Version)
    requires InRange(v)
    ensures var core := ToString(v.major) + "." + ToString(v.minor) +
              (if v.patch > 0 then "." + ToString(v.patch) else "");
            && '-' !in core && core != [] && core[0] != 'v'
            && ParseCore(core, pre) == pre.(major := v.major, minor := v.minor, patch := v.patch)
  {
    NumeralsArePlain(v.major); NumeralsArePlain(v.minor); NumeralsArePlain(v.patch);
    var x, y, z := ToString(v.major), ToString(v.minor), ToString(v.patch);
    assert (x + "." + y)[0] == x[0];
    if v.patch > 0 {
      assert x + "." + y + ("." + z) == x + "." + y + "." + z;
      assert (x + "." + y + "." + z)[0] == x[0];
      CoreParses(v.major, v.minor, v.patch, pre);
    } else {
      assert x + "." + y + "" == x + "." + y;
      ShortCoreParses(v.major, v.minor, pre);
    }
  }

  predicate KnownId(id: string) { id == "alpha" || id == "beta" }

  /** The tail of BadString: a known identifier comes back with its number, any other plain one turns into a commit
      or into a known identifier. */
  lemma BadTail(id: string, n: nat)
    requires Plain(id) && id != "" && n <= MAX_INT
    ensures var tail := id + if n > 0 then ToString(n) else "";
            '-' !in tail &&
              (if KnownId(id) then ParsePre(tail) == ZERO.(preId := id, preVersion := n)
                else ParsePre(tail).preId != id)
  {
    NumeralsArePlain(n);
    AtoiOfToString(n);
    var digits := if n > 0 then ToString(n) else "";
    var tail := id + digits;
    assert '.' !in tail;
    if KnownId(id) {
      assert tail[..|id|] == id && tail[|id|..] == digits;
      if id == "beta" { assert tail[0] == 'b'; }
    }
  }

  function BadCoreOf(v: Version): string
    requires InRange(v)
  {
    ToString(v.major) + "." + ToString(v.minor) + (if v.patch > 0 then "." + ToString(v.patch) else "")
  }

  function BadTailOf(v: Version): string
    requires InRange(v)
  {
    v.preId + if v.preVersion > 0 then ToString(v.preVersion) else ""
  }

  lemma BadStringShape(v: Version)
    requires InRange(v)
    ensures BadString(v) == if v.preId == "" then BadCoreOf(v) else BadCoreOf(v) + "-" + BadTailOf(v)
  {
    var digits := if v.preVersion > 0 then ToString(v.preVersion) else "";
    assert BadCoreOf(v) + ("-" + v.preId + digits) == BadCoreOf(v) + "-" + (v.preId + digits);
  }

  lemma ParseOfBadString(v: Version)
    requires InRange(v) && Plain(v.preId)
    ensures var w := Parse(BadString(v));
            if v.preId == "" then w == v.(commit := "", preVersion := 0)
            else if KnownId(v.preId) then w == v.(commit := "")
            else w.preId != v.preId
  {
    var core := BadCoreOf(v);
    BadStringShape(v);
    if v.preId == "" {
      BadCore(v, ZERO);
      ParseJoined(core, "");
    } else {
      var tail := BadTailOf(v);
      BadTail(v.preId, v.preVersion);
      BadCore(v, ParsePre(tail));
      ParseJoined(core, tail);
    }
  }

  /** BadString round-trips exactly the in-range versions with no commit whose identifier is alpha, beta
      or absent, the last without a pre-release number. */
  lemma BadStringRoundTripsExactly(v: Version)
    requires InRange(v)
    ensures Parse(BadString(v)) == v <==> v.commit == "" && (KnownId(v.preId) || (v.preId == "" && v.preVersion == 0))
  {
    if Plain(v.preId) {
      ParseOfBadString(v);
    } else {
      ParsedIdIsPlain(BadString(v));
      KnownIdsArePlain(v.preId);
    }
  }

  lemma KnownIdsArePlain(id: string)
    ensures KnownId(id) ==> Plain(id)
  {
  }

  // ----- Comparing -----

  predicate After(v: Version, w: Version) {
    if v.major != w.major then v.major > w.major
    else if v.minor != w.minor then v.minor > w.minor
    else if v.patch != w.patch then v.patch > w.patch
    else if v.preId == "" then w.preId != ""
    else if w.preId == "" then false
    else if v.preId == w.preId then v.preVersion > w.preVersion
    else (v.preId == "rc" && w.preId == "beta") || (v.preId == "beta" && w.preId == "alpha")
  }

  lemma AfterIsAsymmetric(v: Version, w: Version)
    requires After(v, w)
    ensures !After(w, v)
  {
    assert "rc"[0] != "beta"[0] && "beta"[0] != "alpha"[0] && "rc"[0] != "alpha"[0];
  }

  ghost predicate SameCore(v: Version, w: Version) { v.major == w.major && v.minor == w.minor && v.patch == w.patch }

  /** Transitivity fails exactly between a release candidate and an alpha of the same core, with a beta in between. */
  lemma AfterIsTransitiveExactly(u: Version, v: Version, w: Version)
    requires After(u, v) && After(v, w)
    ensures After(u, w) <==>
              !(SameCore(u, v) && SameCore(v, w) && u.preId == "rc" && v.preId == "beta" && w.preId == "alpha")
  {
    assert "rc"[0] != "beta"[0] && "beta"[0] != "alpha"[0] && "rc"[0] != "alpha"[0];
  }

  /** Concretely: 1.0.0-rc.1 comes after 1.0.0-beta.1, which comes after 1.0.0-alpha.1, yet not after the last. */
  lemma CandidateIsNotAfterAlpha()
    ensures var u, v, w := Version(1, 0, 0, "", "rc", 1), Version(1, 0, 0, "", "beta", 1),
              Version(1, 0, 0, "", "alpha", 1);
            After(u, v) && After(v, w) && !After(u, w)
  {
    assert "rc"[0] != "beta"[0] && "beta"[0] != "alpha"[0] && "rc"[0] != "alpha"[0];
  }
}
