/** Alias paths: trimming and splitting as the original does it, and prefix tests by whole segments. */
module Paths {
  import opened Model
  import opened RegistrySpec

  // ---------------------------------------------------------------- trimming

  predicate IsSpaceChar(c: char) {
    var n := c as int;
    9 <= n <= 13 || 28 <= n <= 32 || n == 0x85 || n == 0xa0 || n == 0x1680 || 0x2000 <= n <= 0x200a
    || n == 0x2028 || n == 0x2029 || n == 0x202f || n == 0x205f || n == 0x3000
  }

  predicate IsSlash(c: char) { c == '/' }

  function TrimLeft(s: string, drop: char -> bool): (r: string)
    ensures r == "" || !drop(r[0])
    ensures s != "" && !drop(s[0]) ==> r == s
  {
    if s != "" && drop(s[0]) then TrimLeft(s[1..], drop) else s
  }

  function TrimRight(s: string, drop: char -> bool): (r: string)
    ensures r == "" || !drop(r[|r| - 1])
    ensures s != "" && !drop(s[|s| - 1]) ==> r == s
    ensures r <= s
  {
    if s != "" && drop(s[|s| - 1]) then TrimRight(s[..|s| - 1], drop) else s
  }

  function Trim(s: string, drop: char -> bool): string {
    TrimRight(TrimLeft(s, drop), drop)
  }

  /** White space first, then slashes, each once. */
  function Cleaned(s: string): string {
    Trim(Trim(s, IsSpaceChar), IsSlash)
  }

  lemma TrimKeeps(s: string, drop: char -> bool)
    ensures Trim(s, drop) == s <==> s == "" || (!drop(s[0]) && !drop(s[|s| - 1]))
  {
    var t := TrimLeft(s, drop);
    if s != "" && !drop(s[0]) {
      assert t == s;
    }
  }

  // ---------------------------------------------------------------- bucket names

  function SpaceName(space: Space): string {
    match space case Cache => "cache" case Tmp => "tmp" case Users => "users" case Results => "results"
  }

  function SpaceNamed(name: string): Option<Space> {
    if name == "cache" then Some(Cache) else if name == "tmp" then Some(Tmp)
    else if name == "users" then Some(Users) else if name == "results" then Some(Results) else None
  }

  // ---------------------------------------------------------------- segments

  /** Splits at every slash; there is always at least one segment. */
  function Split(s: string): (r: seq<string>)
    ensures |r| >= 1
    ensures forall i | 0 <= i < |r| :: '/' !in r[i]
  {
    if s == "" then [""]
    else
      var rest := Split(s[1..]);
      if s[0] == '/' then [""] + rest else [[s[0]] + rest[0]] + rest[1..]
  }

  function Join(parts: seq<string>): string
    requires |parts| >= 1
  {
    if |parts| == 1 then parts[0] else parts[0] + "/" + Join(parts[1..])
  }

  lemma {:induction false} JoinSplit(s: string)
    ensures Join(Split(s)) == s
  {
    if s != "" {
      JoinSplit(s[1..]);
      var rest := Split(s[1..]);
      if s[0] == '/' {
        assert Split(s)[1..] == rest;
        assert Join(Split(s)) == "" + "/" + Join(rest);
      } else {
        assert Split(s)[1..] == rest[1..];
        if |rest| > 1 {
          assert Join(Split(s)) == [s[0]] + rest[0] + "/" + Join(rest[1..]);
        }
      }
      assert s == [s[0]] + s[1..];
    }
  }

  lemma {:induction false} SplitOne(a: string)
    requires '/' !in a
    ensures Split(a) == [a]
  {
    if a != "" {
      SplitOne(a[1..]);
      assert [a[0]] + a[1..] == a;
    }
  }

  lemma PutInFront(c: char, rest: seq<string>, more: seq<string>)
    requires |rest| >= 1
    ensures (rest + more)[0] == rest[0] && (rest + more)[1..] == rest[1..] + more
    ensures ([""] + rest) + more == [""] + (rest + more)
    ensures ([[c] + rest[0]] + rest[1..]) + more == [[c] + rest[0]] + (rest[1..] + more)
  {
  }

  lemma SplitStep(s: string)
    requires s != ""
    ensures var rest := Split(s[1..]); Split(s) == if s[0] == '/' then [""] + rest else [[s[0]] + rest[0]] + rest[1..]
  {
  }

  /** Splitting goes through a slash. */
  lemma {:induction false} SplitConcat(a: string, b: string)
    ensures Split(a + "/" + b) == Split(a) + Split(b)
  {
    var s := a + "/" + b;
    if a == "" {
      assert s == "/" + b && s[1..] == b;
    } else {
      SplitConcat(a[1..], b);
      assert s[0] == a[0] && s[1..] == a[1..] + "/" + b;
      SplitStep(a);
      SplitStep(s);
      hide Split;
      PutInFront(s[0], Split(a[1..]), Split(b));
    }
  }

  lemma {:induction false} SplitJoin(parts: seq<string>)
    requires |parts| >= 1 && forall i | 0 <= i < |parts| :: '/' !in parts[i]
    ensures Split(Join(parts)) == parts
  {
    SplitOne(parts[0]);
    if |parts| > 1 {
      SplitJoin(parts[1..]);
      SplitConcat(parts[0], Join(parts[1..]));
      assert [parts[0]] + parts[1..] == parts;
    } else {
      assert parts == [parts[0]];
    }
  }

  lemma {:induction false} JoinConcat(front: seq<string>, back: seq<string>)
    requires |front| >= 1 && |back| >= 1
    ensures Join(front + back) == Join(front) + "/" + Join(back)
  {
    if |front| == 1 {
      assert (front + back)[1..] == back;
    } else {
      JoinConcat(front[1..], back);
      assert (front + back)[1..] == front[1..] + back;
    }
  }

  // ---------------------------------------------------------------- the prefix test

  /** The original's test on strings: equal, or continued after a slash. */
  predicate CoversText(prefix: string, candidate: string) {
    candidate == prefix || prefix + "/" <= candidate
  }

  /** The string test is the test on whole segments, for all strings. */
  lemma CoversBySegments(prefix: string, candidate: string)
    ensures CoversText(prefix, candidate) <==> Split(prefix) <= Split(candidate)
  {
    var p, c := Split(prefix), Split(candidate);
    if prefix + "/" <= candidate {
      var rest := candidate[|prefix| + 1..];
      assert candidate == prefix + "/" + rest;
      SplitConcat(prefix, rest);
    }
    if p <= c {
      JoinSplit(prefix);
      JoinSplit(candidate);
      if |p| < |c| {
        assert c == p + c[|p|..];
        JoinConcat(p, c[|p|..]);
      } else {
        assert p == c;
      }
    }
  }

  /** Capability scope: slashes at the ends do not count. */
  predicate InScope(candidate: string, scope: string) {
    CoversText(Trim(scope, IsSlash), Trim(candidate, IsSlash))
  }

  /** The registry's scoping test is the same one, so a scoped name has the partition's segments first. */
  lemma ScopedBySegments(partition: string, name: string)
    ensures IsUnder(partition, name) <==> Split(partition) <= Split(name)
    ensures Split(partition) <= Split(UnderPartition(partition, name))
    ensures Split(UnderPartition(partition, name)) == if Split(partition) <= Split(name) then Split(name)
            else Split(partition) + Split(name)
  {
    CoversBySegments(partition, name);
    if !IsUnder(partition, name) { SplitConcat(partition, name); }
  }

  /** Two names in one partition share a key exactly when they are equal or one spells out the partition. */
  lemma ScopedNamesCollide(partition: string, a: string, b: string)
    ensures UnderPartition(partition, a) == UnderPartition(partition, b)
       <==> a == b || (!IsUnder(partition, b) && a == partition + "/" + b)
            || (!IsUnder(partition, a) && b == partition + "/" + a)
  {
    if !IsUnder(partition, a) && !IsUnder(partition, b) && partition + "/" + a == partition + "/" + b {
      assert a == (partition + "/" + a)[|partition| + 1..];
    }
  }

  lemma {:induction false} FirstSegmentIsFirst(name: string)
    ensures FirstSegment(name) == Split(name)[0]
  {
    if name != "" && name[0] != '/' { FirstSegmentIsFirst(name[1..]); }
  }

  lemma {:induction false} FirstSegmentIsPrefix(name: string)
    ensures FirstSegment(name) <= name
    ensures |FirstSegment(name)| < |name| ==> name[|FirstSegment(name)|] == '/'
  {
    if name != "" && name[0] != '/' {
      FirstSegmentIsPrefix(name[1..]);
      assert name == [name[0]] + name[1..];
    }
  }

  lemma {:induction false} FirstSegmentOf(a: string, b: string)
    requires '/' !in a && b != "" && b[0] == '/'
    ensures FirstSegment(a + b) == a
  {
    var s := a + b;
    if a == "" {
      assert s[0] == '/';
    } else {
      FirstSegmentOf(a[1..], b);
      assert s[1..] == a[1..] + b && s[0] == a[0];
      assert a == [a[0]] + a[1..];
    }
  }

  // ---------------------------------------------------------------- normal forms

  predicate SegmentOk(part: string) {
    part != "" && part != "." && part != ".."
  }

  /** The normal form of a relative path, or nothing where the original raises. */
  function Normalize(s: string): Option<string> {
    var a := Cleaned(s);
    if a == "" then None
    else if exists i | 0 <= i < |Split(a)| :: !SegmentOk(Split(a)[i]) then None
    else Some(a)
  }

  predicate Tight(part: string) {
    part != "" && !IsSpaceChar(part[0]) && !IsSpaceChar(part[|part| - 1])
  }

  /** Sound segments, none with white space at its ends. */
  predicate Canonical(segments: seq<string>) {
    && |segments| >= 1
    && forall i | 0 <= i < |segments| :: SegmentOk(segments[i]) && Tight(segments[i]) && '/' !in segments[i]
  }

  lemma {:induction false} JoinEnds(segments: seq<string>)
    requires Canonical(segments)
    ensures var s := Join(segments);
            s != "" && s[0] == segments[0][0] && s[|s| - 1] == segments[|segments| - 1][|segments[|segments| - 1]| - 1]
  {
    if |segments| > 1 {
      JoinEnds(segments[1..]);
      assert Join(segments) == segments[0] + "/" + Join(segments[1..]);
    }
  }

  /** Canonical paths are their own normal form. */
  lemma CanonicalIsNormal(segments: seq<string>)
    requires Canonical(segments)
    ensures Cleaned(Join(segments)) == Join(segments) && Normalize(Join(segments)) == Some(Join(segments))
  {
    JoinEnds(segments);
    SplitJoin(segments);
    var s := Join(segments);
    assert segments[0][0] in segments[0];
    var last := segments[|segments| - 1];
    assert last[|last| - 1] in last;
    TrimKeeps(s, IsSpaceChar);
    TrimKeeps(s, IsSlash);
  }

  lemma {:induction false} TrimLeftShortens(s: string, drop: char -> bool)
    ensures |TrimLeft(s, drop)| <= |s| && (s != "" && drop(s[0]) ==> |TrimLeft(s, drop)| < |s|)
  {
    if s != "" && drop(s[0]) { TrimLeftShortens(s[1..], drop); }
  }

  lemma {:induction false} TrimRightShortens(s: string, drop: char -> bool)
    ensures |TrimRight(s, drop)| <= |s| && (s != "" && drop(s[|s| - 1]) ==> |TrimRight(s, drop)| < |s|)
  {
    if s != "" && drop(s[|s| - 1]) { TrimRightShortens(s[..|s| - 1], drop); }
  }

  lemma TrimShortens(s: string, drop: char -> bool)
    ensures |Trim(s, drop)| <= |s|
    ensures Trim(s, drop) != s ==> |Trim(s, drop)| < |s|
  {
    TrimLeftShortens(s, drop);
    TrimRightShortens(TrimLeft(s, drop), drop);
    TrimKeeps(s, drop);
  }

  // ---------------------------------------------------------------- trimming side by side

  predicate SpaceFirst(s: string) { s != "" && IsSpaceChar(s[0]) }

  predicate SpaceLast(s: string) { s != "" && IsSpaceChar(s[|s| - 1]) }

  function LeftTrim(s: string): string { TrimLeft(TrimLeft(s, IsSpaceChar), IsSlash) }

  function RightTrim(s: string): string { TrimRight(TrimRight(s, IsSpaceChar), IsSlash) }

  lemma {:induction false} TrimRightAppend(front: string, s: string, drop: char -> bool)
    requires TrimRight(s, drop) != ""
    ensures TrimRight(front + s, drop) == front + TrimRight(s, drop)
  {
    var all := front + s;
    assert s != "" && all[|all| - 1] == s[|s| - 1];
    if drop(s[|s| - 1]) {
      TrimRightAppend(front, s[..|s| - 1], drop);
      assert all[..|all| - 1] == front + s[..|s| - 1];
    }
  }

  lemma {:induction false} TrimLeftAppend(s: string, back: string, drop: char -> bool)
    requires TrimLeft(s, drop) != ""
    ensures TrimLeft(s + back, drop) == TrimLeft(s, drop) + back
  {
    var all := s + back;
    assert s != "" && all[0] == s[0];
    if drop(s[0]) {
      TrimLeftAppend(s[1..], back, drop);
      assert all[1..] == s[1..] + back;
    }
  }

  lemma {:induction false} TrimRightAll(s: string, drop: char -> bool)
    ensures TrimRight(s, drop) == "" <==> forall c <- s :: drop(c)
  {
    if s != "" {
      var n := |s| - 1;
      assert s == s[..n] + [s[n]];
      TrimRightAll(s[..n], drop);
    }
  }

  /** Trimming the two ends commutes, whatever is dropped at each. */
  lemma {:induction false} TrimsCommute(s: string, left: char -> bool, right: char -> bool)
    ensures TrimRight(TrimLeft(s, left), right) == TrimLeft(TrimRight(s, right), left)
  {
    if s != "" && left(s[0]) {
      TrimsCommute(s[1..], left, right);
      assert s == [s[0]] + s[1..];
      if TrimRight(s[1..], right) != "" {
        TrimRightAppend([s[0]], s[1..], right);
        assert TrimRight(s, right)[1..] == TrimRight(s[1..], right);
      } else {
        TrimRightAll(s[1..], right);
        TrimRightOne(s, right);
      }
    } else {
      TrimLeftFirst(TrimRight(s, right), left);
    }
  }

  /** When all but the first character goes at the right, at most that one is left. */
  lemma TrimRightOne(s: string, drop: char -> bool)
    requires s != "" && forall c <- s[1..] :: drop(c)
    ensures TrimRight(s, drop) == "" || TrimRight(s, drop) == [s[0]]
  {
    if drop(s[0]) {
      assert forall c <- s :: c == s[0] || c in s[1..] by { assert s == [s[0]] + s[1..]; }
      TrimRightAll(s, drop);
    } else {
      TrimRightTail([s[0]], s[1..], drop);
      assert s == [s[0]] + s[1..];
    }
  }

  lemma {:induction false} TrimRightTail(front: string, s: string, drop: char -> bool)
    requires forall c <- s :: drop(c)
    ensures TrimRight(front + s, drop) == TrimRight(front, drop)
  {
    if s == "" {
      assert front + s == front;
    } else {
      var all := front + s;
      assert all[|all| - 1] == s[|s| - 1] && s[|s| - 1] in s;
      assert all[..|all| - 1] == front + s[..|s| - 1];
      TrimRightTail(front, s[..|s| - 1], drop);
    }
  }

  lemma TrimLeftFirst(s: string, drop: char -> bool)
    requires s == "" || !drop(s[0])
    ensures TrimLeft(s, drop) == s
  {
  }

  /** Cleaning is trimming the right end and then the left. */
  lemma CleanedBySides(s: string)
    ensures Cleaned(s) == LeftTrim(RightTrim(s)) == RightTrim(LeftTrim(s))
  {
    var l := TrimLeft(s, IsSpaceChar);
    TrimsCommute(s, IsSpaceChar, IsSpaceChar);
    TrimsCommute(TrimRight(l, IsSpaceChar), IsSlash, IsSlash);
    TrimsCommute(TrimRight(s, IsSpaceChar), IsSpaceChar, IsSlash);
    TrimsCommute(l, IsSlash, IsSpaceChar);
  }

  lemma SidesShorten(s: string)
    ensures |LeftTrim(s)| <= |s| && |RightTrim(s)| <= |s|
    ensures SpaceFirst(s) ==> |LeftTrim(s)| < |s|
    ensures SpaceLast(s) ==> |RightTrim(s)| < |s|
  {
    TrimLeftShortens(s, IsSpaceChar);
    TrimLeftShortens(TrimLeft(s, IsSpaceChar), IsSlash);
    TrimRightShortens(s, IsSpaceChar);
    TrimRightShortens(TrimRight(s, IsSpaceChar), IsSlash);
  }

  /** Some white space lies right behind the slashes `t` begins with. */
  predicate SpaceBehindSlashes(t: string) {
    exists n | 0 <= n < |t| :: (forall i | 0 <= i < n :: t[i] == '/') && IsSpaceChar(t[n])
  }

  /** Some white space lies right before the slashes `t` ends with. */
  predicate SpaceBeforeSlashes(t: string) {
    exists n | 0 <= n < |t| :: (forall i | n < i < |t| :: t[i] == '/') && IsSpaceChar(t[n])
  }

  lemma {:induction false} LeadingSlashes(t: string)
    ensures SpaceFirst(TrimLeft(t, IsSlash)) <==> SpaceBehindSlashes(t)
  {
    if t != "" {
      if t[0] == '/' {
        LeadingSlashes(t[1..]);
        if SpaceBehindSlashes(t[1..]) {
          var n :| 0 <= n < |t| - 1 && (forall i | 0 <= i < n :: t[1..][i] == '/') && IsSpaceChar(t[1..][n]);
          assert forall i | 0 <= i < n + 1 :: t[i] == '/' by { assert forall i | 1 <= i < n + 1 ::
                 t[i] == t[1..][i - 1]; }
          assert IsSpaceChar(t[n + 1]);
        }
        if SpaceBehindSlashes(t) {
          var n :| 0 <= n < |t| && (forall i | 0 <= i < n :: t[i] == '/') && IsSpaceChar(t[n]);
          assert n > 0 && IsSpaceChar(t[1..][n - 1]);
        }
      } else if SpaceBehindSlashes(t) {
        var n :| 0 <= n < |t| && (forall i | 0 <= i < n :: t[i] == '/') && IsSpaceChar(t[n]);
        assert n == 0;
      }
    }
  }

  lemma {:induction false} TrailingSlashes(t: string)
    ensures SpaceLast(TrimRight(t, IsSlash)) <==> SpaceBeforeSlashes(t)
  {
    if t != "" {
      var m := |t| - 1;
      if t[m] == '/' {
        TrailingSlashes(t[..m]);
        if SpaceBeforeSlashes(t[..m]) {
          var n :| 0 <= n < m && (forall i | n < i < m :: t[..m][i] == '/') && IsSpaceChar(t[..m][n]);
          assert forall i | n < i < |t| :: t[i] == '/' by { assert forall i | n < i < m :: t[i] == t[..m][i]; }
          assert IsSpaceChar(t[n]);
        }
        if SpaceBeforeSlashes(t) {
          var n :| 0 <= n < |t| && (forall i | n < i < |t| :: t[i] == '/') && IsSpaceChar(t[n]);
          assert n < m && IsSpaceChar(t[..m][n]);
        }
      } else if SpaceBeforeSlashes(t) {
        var n :| 0 <= n < |t| && (forall i | n < i < |t| :: t[i] == '/') && IsSpaceChar(t[n]);
        assert n == m;
      }
    }
  }

  /** Normalizing a second time changes nothing exactly when, white space at the ends aside, none lies
      behind the leading slashes or before the trailing ones. */
  lemma NormalizeTwice(s: string)
    requires Normalize(s).Some?
    ensures Normalize(Normalize(s).value) == Normalize(s)
       <==> !SpaceBehindSlashes(Trim(s, IsSpaceChar)) && !SpaceBeforeSlashes(Trim(s, IsSpaceChar))
  {
    var t, a := Trim(s, IsSpaceChar), Cleaned(s);
    hide SpaceBehindSlashes, SpaceBeforeSlashes;
    LeadingSlashes(t);
    TrailingSlashes(t);
    TrimEdges(t);
    EndSlashes(a);
    hide Split;
    TrimKeeps(a, IsSpaceChar);
    TrimKeeps(a, IsSlash);
    if !Tight(a) {
      TrimShortens(a, IsSpaceChar);
      TrimShortens(Trim(a, IsSpaceChar), IsSlash);
    }
  }

  lemma TrimEdges(t: string)
    requires Trim(t, IsSlash) != ""
    ensures var a := Trim(t, IsSlash);
            TrimLeft(t, IsSlash) != "" && TrimRight(t, IsSlash) != "" && a[0] == TrimLeft(t, IsSlash)[0]
              && a[|a| - 1] == TrimRight(t, IsSlash)[|TrimRight(t, IsSlash)| - 1]
  {
    TrimsCommute(t, IsSlash, IsSlash);
    TrimLeftIsSuffix(TrimRight(t, IsSlash), IsSlash);
  }

  lemma {:induction false} TrimLeftIsSuffix(s: string, drop: char -> bool)
    ensures |TrimLeft(s, drop)| <= |s| && TrimLeft(s, drop) == s[|s| - |TrimLeft(s, drop)|..]
  {
    if s != "" && drop(s[0]) { TrimLeftIsSuffix(s[1..], drop); }
  }

  /** A slash at an end makes an empty segment there. */
  lemma EndSlashes(a: string)
    requires a != ""
    ensures a[0] == '/' ==> Split(a)[0] == ""
    ensures a[|a| - 1] == '/' ==> Split(a)[|Split(a)| - 1] == ""
  {
    if a[|a| - 1] == '/' {
      SplitConcat(a[..|a| - 1], "");
      assert a == a[..|a| - 1] + "/" + "";
    }
  }

  lemma TrimOne(x: char, s: string, y: char, drop: char -> bool)
    requires drop(x) && drop(y) && s != "" && !drop(s[0]) && !drop(s[|s| - 1])
    ensures Trim([x] + s + [y], drop) == s
  {
    var all := [x] + s + [y];
    assert all[1..] == s + [y] && (s + [y])[..|s|] == s;
    assert TrimLeft(all, drop) == TrimLeft(s + [y], drop) == s + [y];
    assert TrimRight(s + [y], drop) == TrimRight(s, drop) == s;
  }

  /** Normalizing is not idempotent: a space uncovered by the slashes goes only the second time. */
  lemma NormalizeMovesAgain()
    ensures Normalize("/ a /") == Some(" a ") && Normalize(" a ") == Some("a")
  {
    TrimKeeps("/ a /", IsSpaceChar);
    TrimOne('/', " a ", '/', IsSlash);
    SplitOne(" a ");
    assert "/ a /" == ['/'] + " a " + ['/'];
    TrimOne(' ', "a", ' ', IsSpaceChar);
    assert " a " == [' '] + "a" + [' '];
    TrimKeeps("a", IsSlash);
    SplitOne("a");
    hide Trim;
  }
}
