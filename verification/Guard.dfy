/** How the storage guard parses an alias, under which key a write binds it and under which key a read
    looks it up. */
module Guard {
  import opened Model
  import opened RegistrySpec
  import opened Paths

  // ---------------------------------------------------------------- parsing an alias

  datatype Parsed = Parsed(space: Space, relative: string, partition: string, name: string, qualified: string)

  datatype Cut = NoCut | Cut(front: string, back: string)

  /** Cuts at the first slash; both parts must be there. */
  function CutOnce(s: string): Cut {
    var front := FirstSegment(s);
    if |front| + 1 < |s| then Cut(front, s[|front| + 1..]) else NoCut
  }

  function ParseAlias(alias: string): Option<Parsed> {
    var top := CutOnce(Cleaned(alias));
    if top.NoCut? then None
    else
      var space, relative := SpaceNamed(Cleaned(top.front)), Normalize(top.back);
      if space.None? || relative.None? then None
      else
        var inner := CutOnce(relative.value);
        if inner.NoCut? then None
        else
          var partition, name, again := Normalize(inner.front), Normalize(inner.back), Normalize(relative.value);
          if partition.None? || name.None? || again.None? then None
          else Some(Parsed(space.value, relative.value, partition.value, name.value,
                           SpaceName(space.value) + "/" + again.value))
  }

  /** The name a reservation binds. Partition and name are normalized on entry, again when the name is put
      under the partition, and the scoped name once more when it becomes a key. */
  function ScopedName(p: Parsed): Option<string> {
    var partition, name := Normalize(p.partition), Normalize(p.name);
    if partition.None? || name.None? then None
    else
      var prefix, rest := Normalize(partition.value), Normalize(name.value);
      if prefix.None? || rest.None? then None else Normalize(UnderPartition(prefix.value, rest.value))
  }

  /** Where a write binds. */
  function WriteKey(p: Parsed): Option<Key> {
    var name := ScopedName(p);
    if name.None? then None else Some((p.space, name.value))
  }

  /** Where a read looks: the parsed path, normalized by the caller and by the key. */
  function ReadKey(p: Parsed): Option<Key> {
    var once := Normalize(p.relative);
    if once.None? then None
    else
      var twice := Normalize(once.value);
      if twice.None? then None else Some((p.space, twice.value))
  }

  // ---------------------------------------------------------------- when both keys are the same

  /** The partition segment does not end in white space, the name does not begin with any, none is left at
      its end once the right end was trimmed twice, and the name does not repeat the partition. */
  predicate SameForBoth(front: string, back: string) {
    var rest := RightTrim(RightTrim(back));
    !SpaceLast(front) && !SpaceFirst(back) && !SpaceLast(rest) && !IsUnder(TrimLeft(front, IsSpaceChar), rest)
  }

  predicate SoundPath(s: string) {
    s != "" && forall i | 0 <= i < |Split(s)| :: SegmentOk(Split(s)[i])
  }

  lemma NormalizeIs(s: string)
    ensures Normalize(s) == if SoundPath(Cleaned(s)) then Some(Cleaned(s)) else None
  {
  }

  /** Front and back of a path that is cleaned as one: trimmed at the outer ends only. */
  lemma CleanedPair(front: string, back: string)
    requires '/' !in front && TrimLeft(front, IsSpaceChar) != ""
    requires back != "" && back[0] != '/' && TrimRight(back, IsSpaceChar) != ""
    ensures Cleaned(front + "/" + back) == TrimLeft(front, IsSpaceChar) + "/" + RightTrim(back)
  {
    var left, right := TrimLeft(front, IsSpaceChar), TrimRight(back, IsSpaceChar);
    TrimLeftIsSuffix(front, IsSpaceChar);
    assert left[0] in front && right[0] == back[0];
    SlashKept(right);
    TrimLeftAppend(front, "/" + back, IsSpaceChar);
    hide TrimLeft, TrimRight;
    assert front + "/" + back == front + ("/" + back) && left + ("/" + back) == (left + "/") + back;
    TrimRightAppend(left + "/", back, IsSpaceChar);
    var middle := (left + "/") + right;
    assert middle[0] == left[0];
    TrimLeftFirst(middle, IsSlash);
    TrimRightAppend(left + "/", right, IsSlash);
  }

  lemma SlashKept(s: string)
    requires s != "" && s[0] != '/'
    ensures TrimRight(s, IsSlash) != ""
  {
    TrimRightAll(s, IsSlash);
    assert s[0] in s;
  }

  lemma {:induction false} TrimLeftAll(s: string, drop: char -> bool)
    ensures TrimLeft(s, drop) == "" <==> forall c <- s :: drop(c)
  {
    if s != "" {
      assert s == [s[0]] + s[1..];
      TrimLeftAll(s[1..], drop);
    }
  }

  /** What is left after cleaning shows that the right end alone leaves more than white space. */
  lemma RightTrimLeaves(s: string)
    requires Cleaned(s) != "" && s[0] != '/'
    ensures var r := RightTrim(s);
            TrimRight(s, IsSpaceChar) != "" && r != "" && r[0] == s[0] && TrimRight(r, IsSpaceChar) != ""
  {
    var r := RightTrim(s);
    CleanedBySides(s);
    TrimLeftAll(r, IsSpaceChar);
    TrimRightAll(r, IsSpaceChar);
  }

  datatype Parts = Parts(front: string, back: string)

  /** Front and back of a parsed path. */
  lemma PartsOfParsed(alias: string) returns (q: Parts)
    requires ParseAlias(alias).Some?
    ensures var p := ParseAlias(alias).value;
            && CutOnce(p.relative) == Cut(q.front, q.back) && p.relative == q.front + "/" + q.back
            && Normalize(q.front) == Some(p.partition) && Normalize(q.back) == Some(p.name)
               && Normalize(p.relative).Some?
    ensures '/' !in q.front && TrimLeft(q.front, IsSpaceChar) != "" && q.back != "" && q.back[0] != '/'
  {
    var p := ParseAlias(alias).value;
    var top := CutOnce(Cleaned(alias));
    hide Cleaned, Normalize, SoundPath, Split, SpaceNamed, SpaceName, FirstSegment;
    NormalizeIs(top.back);
    var cut := CutOnce(p.relative);
    q := Parts(cut.front, cut.back);
    PartsAreSound(p.relative, q.front, q.back);
    NormalizeIs(q.front);
    assert Cleaned(q.front) != "" by { assert SoundPath(Cleaned(q.front)); }
    CleanedLeaves(q.front);
  }

  lemma PartsAreSound(relative: string, front: string, back: string)
    requires SoundPath(relative) && CutOnce(relative) == Cut(front, back)
    ensures relative == front + "/" + back && '/' !in front && back != "" && back[0] != '/'
  {
    FirstSegmentIsPrefix(relative);
    FirstSegmentIsFirst(relative);
    assert relative == front + "/" + back;
    SplitConcat(front, back);
    SplitOne(front);
    assert Split(relative)[1] == Split(back)[0];
    EndSlashes(back);
  }

  lemma CleanedLeaves(s: string)
    ensures TrimLeft(s, IsSpaceChar) == "" ==> Cleaned(s) == ""
  {
  }

  /** A read looks for the front trimmed on the left and the back trimmed twice on the right. */
  lemma ReadKeyOf(p: Parsed, q: Parts)
    requires p.relative == q.front + "/" + q.back && '/' !in q.front && TrimLeft(q.front, IsSpaceChar) != ""
    requires q.back != "" && q.back[0] != '/' && Cleaned(q.back) != ""
    ensures var name := TrimLeft(q.front, IsSpaceChar) + "/" + RightTrim(RightTrim(q.back));
            ReadKey(p).Some? ==> ReadKey(p) == Some((p.space, name)) && SoundPath(name)
  {
    var left, once := TrimLeft(q.front, IsSpaceChar), RightTrim(q.back);
    RightTrimLeaves(q.back);
    CleanedPair(q.front, q.back);
    TrimLeftIsSuffix(q.front, IsSpaceChar);
    assert '/' !in left && TrimLeft(left, IsSpaceChar) == left;
    CleanedPair(left, once);
    NormalizeIs(p.relative);
    NormalizeIs(left + "/" + once);
    hide Cleaned, SoundPath;
  }

  /** A partition without slashes is trimmed once and for all. */
  lemma PartitionIsNormal(front: string)
    requires '/' !in front && Normalize(front).Some?
    ensures var partition := Normalize(front).value;
            && partition == TrimRight(TrimLeft(front, IsSpaceChar), IsSpaceChar)
               && Normalize(partition) == Some(partition)
            && '/' !in partition && partition[0] != '/' && TrimLeft(partition, IsSpaceChar) == partition
            && !IsSpaceChar(partition[0]) && !IsSpaceChar(partition[|partition| - 1])
  {
    var left := TrimLeft(front, IsSpaceChar);
    var partition := TrimRight(left, IsSpaceChar);
    TrimLeftIsSuffix(front, IsSpaceChar);
    assert '/' !in partition;
    TrimKeeps(partition, IsSlash);
    assert Trim(partition, IsSlash) == partition by {
      if partition != "" { assert partition[0] in partition && partition[|partition| - 1] in partition; }
    }
    TrimKeeps(partition, IsSpaceChar);
    NormalizeIs(front);
    NormalizeIs(partition);
  }

  lemma RightTrimFirst(s: string)
    requires TrimRight(s, IsSpaceChar) != "" && s[0] != '/'
    ensures RightTrim(s) != "" && RightTrim(s)[0] == s[0]
  {
    var t := TrimRight(s, IsSpaceChar);
    TrimRightAll(t, IsSlash);
    assert t[0] in t;
  }

  lemma NothingToTrimLeft(s: string)
    requires s == "" || (!IsSpaceChar(s[0]) && s[0] != '/')
    ensures LeftTrim(s) == s
  {
  }

  /** The name on its way through three normalizations, measured against what a read looks for. */
  lemma NameTrims(back: string)
    requires back != "" && back[0] != '/' && Cleaned(back) != ""
    ensures var twice, rest := Cleaned(Cleaned(back)), RightTrim(RightTrim(back));
            && rest != "" && rest[0] == back[0] && |Cleaned(twice)| <= |twice| <= |rest|
            && (SpaceFirst(back) ==> |twice| < |rest|)
            && (!SpaceFirst(back) ==> twice == rest && Cleaned(twice) == RightTrim(rest))
  {
    var once, rest := RightTrim(back), RightTrim(RightTrim(back));
    RightTrimLeaves(back);
    RightTrimFirst(once);
    CleanedBySides(back);
    CleanedBySides(once);
    CleanedBySides(Cleaned(back));
    var twice := Cleaned(Cleaned(back));
    assert twice == LeftTrim(LeftTrim(rest));
    CleanedBySides(twice);
    hide Cleaned;
    SidesShorten(rest);
    SidesShorten(LeftTrim(rest));
    SidesShorten(twice);
    SidesShorten(RightTrim(twice));
    if !SpaceFirst(back) {
      NothingToTrimLeft(rest);
      NothingToTrimLeft(RightTrim(rest));
    }
  }

  /** The scoped name is never longer than what its parts leave. */
  lemma ScopedNameOf(p: Parsed)
    requires Normalize(p.partition) == Some(p.partition) && WriteKey(p).Some?
    ensures var name := Cleaned(Cleaned(p.name));
            && WriteKey(p) == Some((p.space, Cleaned(UnderPartition(p.partition, name))))
            && |WriteKey(p).value.1| <= if IsUnder(p.partition, name) then |name| else |p.partition| + 1 + |name|
  {
    var once := Cleaned(p.name);
    NormalizeIs(p.name);
    NormalizeIs(once);
    NormalizeIs(UnderPartition(p.partition, Cleaned(once)));
    CleanedShortens(UnderPartition(p.partition, Cleaned(once)));
    hide Cleaned, SoundPath, Normalize;
  }

  lemma CleanedShortens(s: string)
    ensures |Cleaned(s)| <= |s|
  {
    TrimShortens(s, IsSpaceChar);
    TrimShortens(Trim(s, IsSpaceChar), IsSlash);
  }

  predicate AreParts(p: Parsed, q: Parts) {
    && p.relative == q.front + "/" + q.back && '/' !in q.front && q.back != "" && q.back[0] != '/'
    && Normalize(q.front) == Some(p.partition) && Normalize(q.back) == Some(p.name)
  }

  lemma DifferentKeys(p: Parsed, q: Parts)
    requires AreParts(p, q) && TrimLeft(q.front, IsSpaceChar) != "" && !SameForBoth(q.front, q.back)
    requires WriteKey(p).Some? && ReadKey(p).Some?
    ensures WriteKey(p) != ReadKey(p)
  {
    var left, rest := TrimLeft(q.front, IsSpaceChar), RightTrim(RightTrim(q.back));
    NormalizeIs(q.back);
    PartitionIsNormal(q.front);
    hide SoundPath, Normalize;
    NameTrims(q.back);
    ReadKeyOf(p, q);
    ScopedNameOf(p);
    TrimRightShortens(left, IsSpaceChar);
    SidesShorten(rest);
    FixedByRightTrim(RightTrim(q.back));
    LastOfTrimLeft(q.front);
    hide Cleaned, ReadKey, WriteKey, RightTrim, UnderPartition;
  }

  lemma LastOfTrimLeft(s: string)
    requires TrimLeft(s, IsSpaceChar) != ""
    ensures SpaceLast(s) <==> SpaceLast(TrimLeft(s, IsSpaceChar))
    ensures !SpaceLast(s) ==> TrimRight(TrimLeft(s, IsSpaceChar), IsSpaceChar) == TrimLeft(s, IsSpaceChar)
  {
    TrimLeftIsSuffix(s, IsSpaceChar);
  }

  /** Trimmed on the right once, a text that does not end in white space is trimmed for good. */
  lemma FixedByRightTrim(s: string)
    ensures var r := RightTrim(s); !SpaceLast(r) ==> RightTrim(r) == r
  {
  }

  lemma SameKeys(p: Parsed, q: Parts)
    requires AreParts(p, q) && TrimLeft(q.front, IsSpaceChar) != "" && SameForBoth(q.front, q.back) && ReadKey(p).Some?
    ensures WriteKey(p) == ReadKey(p)
  {
    var left, rest := TrimLeft(q.front, IsSpaceChar), RightTrim(RightTrim(q.back));
    NormalizeIs(q.back);
    PartitionIsNormal(q.front);
    LastOfTrimLeft(q.front);
    hide Normalize;
    assert p.partition == left;
    NameTrims(q.back);
    ReadKeyOf(p, q);
    FixedByRightTrim(RightTrim(q.back));
    assert Cleaned(Cleaned(p.name)) == rest && Cleaned(p.name) == rest;
    assert TrimRight(rest, IsSpaceChar) == rest;
    TailIsSound(left, rest);
    NormalizeIs(p.name);
    NormalizeIs(rest);
    assert Normalize(p.name) == Some(rest) && Normalize(rest) == Some(rest);
    CleanedPair(left, rest);
    NormalizeIs(left + "/" + rest);
  }

  lemma TailIsSound(front: string, back: string)
    requires SoundPath(front + "/" + back) && '/' !in front && back != ""
    ensures SoundPath(back)
  {
    SplitConcat(front, back);
    SplitOne(front);
    var all := Split(front + "/" + back);
    forall i | 0 <= i < |Split(back)| ensures SegmentOk(Split(back)[i]) { assert all[i + 1] == Split(back)[i]; }
  }

  /** A write binds the name that a read of the same alias looks up exactly when a read can look up any and
      the two parts of the path are the same to both. */
  lemma KeysAgreeExactlyWhen(alias: string)
    requires ParseAlias(alias).Some?
    ensures var p := ParseAlias(alias).value;
            var cut := CutOnce(p.relative);
            && cut.Cut?
            && (WriteKey(p).Some? && WriteKey(p) == ReadKey(p)
                <==> ReadKey(p).Some? && SameForBoth(cut.front, cut.back))
  {
    var p := ParseAlias(alias).value;
    var q := PartsOfParsed(alias);
    hide ParseAlias, Normalize, ReadKey, WriteKey, SameForBoth, TrimLeft;
    if ReadKey(p).Some? {
      if SameForBoth(q.front, q.back) {
        SameKeys(p, q);
      } else if WriteKey(p).Some? {
        DifferentKeys(p, q);
      }
    }
  }

  // ---------------------------------------------------------------- canonical aliases

  /** A canonical qualified alias: bucket, partition and at least one more segment. */
  predicate Qualified(segments: seq<string>) {
    Canonical(segments) && |segments| >= 3 && SpaceNamed(segments[0]).Some?
  }

  lemma CutJoined(segments: seq<string>)
    requires Canonical(segments) && |segments| >= 2
    ensures CutOnce(Join(segments)) == Cut(segments[0], Join(segments[1..]))
  {
    SplitJoin(segments);
    FirstSegmentIsFirst(Join(segments));
    JoinEnds(segments[1..]);
  }

  /** The parts of a canonical alias are in normal form and join up again. */
  lemma PartsOfCanonical(segments: seq<string>)
    requires Qualified(segments)
    ensures var whole, relative, name := Join(segments), Join(segments[1..]), Join(segments[2..]);
            && Cleaned(whole) == whole && Cleaned(segments[0]) == segments[0]
            && Normalize(relative) == Some(relative) && Normalize(segments[1]) == Some(segments[1])
               && Normalize(name) == Some(name)
            && whole == segments[0] + "/" + relative && relative == segments[1] + "/" + name
            && CutOnce(whole) == Cut(segments[0], relative) && CutOnce(relative) == Cut(segments[1], name)
            && SpaceName(SpaceNamed(segments[0]).value) == segments[0]
  {
    assert SpaceName(SpaceNamed(segments[0]).value) == segments[0];
    hide Cleaned, Normalize, CutOnce, SpaceNamed, SpaceName;
    CanonicalParts(segments);
    assert segments[1..][1..] == segments[2..] && segments[1..][0] == segments[1];
    hide Canonical;
    CanonicalIsNormal(segments);
    CanonicalIsNormal([segments[0]]);
    CanonicalIsNormal(segments[1..]);
    CanonicalIsNormal([segments[1]]);
    CanonicalIsNormal(segments[2..]);
    CutJoined(segments);
    CutJoined(segments[1..]);
    assert Join([segments[0]]) == segments[0] && Join([segments[1]]) == segments[1];
  }

  lemma CanonicalParts(segments: seq<string>)
    requires Canonical(segments) && |segments| >= 3
    ensures Canonical(segments[1..]) && Canonical(segments[2..]) && Canonical([segments[0]]) && Canonical([segments[1]])
  {
    hide SegmentOk, Tight;
  }

  /** A canonical alias parses into its own segments. */
  lemma ParseCanonical(segments: seq<string>)
    requires Qualified(segments)
    ensures ParseAlias(Join(segments))
         == Some(Parsed(SpaceNamed(segments[0]).value, Join(segments[1..]), segments[1], Join(segments[2..]),
                        Join(segments)))
  {
    PartsOfCanonical(segments);
    hide Cleaned, Normalize, CutOnce, Canonical, Join, SpaceNamed, SpaceName;
  }

  lemma ScopedFresh(partition: string, name: string)
    ensures UnderPartition(partition, name) == partition + "/" + name <==> !IsUnder(partition, name)
  {
    if IsUnder(partition, name) { assert |partition + "/" + name| > |name|; }
  }

  lemma UnderExactlyWhen(partition: string, rest: seq<string>)
    requires '/' !in partition && Canonical(rest)
    ensures IsUnder(partition, Join(rest)) <==> partition == rest[0]
  {
    SplitJoin(rest);
    SplitOne(partition);
    ScopedBySegments(partition, Join(rest));
    hide Canonical, Join, Split;
    assert [partition] <= rest <==> partition == rest[0];
  }

  /** On canonical aliases that is exactly when the name does not begin by repeating the partition. */
  lemma CanonicalKeysAgreeExactlyWhen(segments: seq<string>)
    requires Qualified(segments)
    ensures ParseAlias(Join(segments)).Some?
    ensures var p := ParseAlias(Join(segments)).value;
            && WriteKey(p).Some? && ReadKey(p) == Some((SpaceNamed(segments[0]).value, Join(segments[1..])))
            && (WriteKey(p) == ReadKey(p) <==> segments[1] != segments[2])
  {
    ParseCanonical(segments);
    PartsOfCanonical(segments);
    hide Cleaned, Normalize, CutOnce, Join, SpaceNamed, SpaceName, ParseAlias;
    CanonicalParts(segments);
    assert '/' !in segments[1] && segments[2..][0] == segments[2];
    hide Canonical;
    UnderExactlyWhen(segments[1], segments[2..]);
    ScopedFresh(segments[1], Join(segments[2..]));
    hide IsUnder, UnderPartition;
  }

  /** Writing to `cache/p/p/x` binds `p/x`, while reading it looks for `p/p/x`. */
  lemma RepeatedPartitionLosesItsName()
    ensures ParseAlias("cache/p/p/x").Some?
    ensures WriteKey(ParseAlias("cache/p/p/x").value) == Some((Cache, "p/x"))
    ensures ReadKey(ParseAlias("cache/p/p/x").value) == Some((Cache, "p/p/x"))
  {
    var segments := ["cache", "p", "p", "x"];
    assert segments[1..] == ["p", "p", "x"] && segments[2..] == ["p", "x"];
    assert Join(["x"]) == "x";
    assert ["p", "x"][1..] == ["x"] && Join(["p", "x"]) == "p/x";
    assert ["p", "p", "x"][1..] == ["p", "x"] && Join(["p", "p", "x"]) == "p/p/x";
    assert segments[1..] == ["p", "p", "x"] && Join(segments) == "cache/p/p/x";
    PartsOfCanonical(segments);
    ParseCanonical(segments);
    hide Cleaned, Normalize, CutOnce, Canonical, Join, ParseAlias, Split;
    assert SpaceNamed("cache") == Some(Cache);
    assert IsUnder("p", "p/x");
  }

  lemma EdgesKept(s: string)
    requires s != "" && !IsSpaceChar(s[0]) && s[0] != '/' && !IsSpaceChar(s[|s| - 1]) && s[|s| - 1] != '/'
    ensures Cleaned(s) == s
  {
    TrimKeeps(s, IsSpaceChar);
    TrimKeeps(s, IsSlash);
  }

  lemma CutAt(front: string, back: string)
    requires '/' !in front && back != ""
    ensures CutOnce(front + "/" + back) == Cut(front, back)
  {
    assert front + "/" + back == front + ("/" + back);
    FirstSegmentOf(front, "/" + back);
  }

  lemma TwoSegments(front: string, back: string)
    requires SegmentOk(front) && SegmentOk(back) && '/' !in front && '/' !in back
    ensures SoundPath(front + "/" + back)
  {
    SplitConcat(front, back);
    SplitOne(front);
    SplitOne(back);
  }

  predicate Word(s: string) { SegmentOk(s) && Tight(s) && '/' !in s }

  lemma WordIsNormal(s: string)
    requires Word(s)
    ensures Normalize(s) == Some(s) && Cleaned(s) == s
  {
    assert s[0] in s && s[|s| - 1] in s;
    EdgesKept(s);
    SplitOne(s);
  }

  /** A space in front of a word goes. */
  lemma SpacedWord(s: string)
    requires Word(s)
    ensures Normalize([' '] + s) == Some(s)
  {
    WordIsNormal(s);
    assert ([' '] + s)[1..] == s;
    assert TrimLeft([' '] + s, IsSpaceChar) == TrimLeft(s, IsSpaceChar);
    assert Cleaned([' '] + s) == Cleaned(s);
  }

  /** White space at the slash between two words stays. */
  lemma PairIsNormal(front: string, back: string)
    requires Word(front) && SegmentOk(back) && '/' !in back && !SpaceLast(back)
    ensures Normalize(front + "/" + back) == Some(front + "/" + back) && CutOnce(front + "/" + back) == Cut(front, back)
    ensures Cleaned(front + "/" + back) == front + "/" + back
  {
    assert front[0] in front && back[|back| - 1] in back;
    EdgesKept(front + "/" + back);
    TwoSegments(front, back);
    NormalizeIs(front + "/" + back);
    CutAt(front, back);
  }

  lemma QualifiedIsClean(space: string, tail: string)
    requires Word(space) && tail != "" && !IsSpaceChar(tail[|tail| - 1]) && tail[|tail| - 1] != '/'
    ensures CutOnce(Cleaned(space + "/" + tail)) == Cut(space, tail)
  {
    assert space[0] in space;
    EdgesKept(space + "/" + tail);
    CutAt(space, tail);
  }

  /** A name that begins with a space: writing to `cache/p/ x` binds `p/x`, reading it looks for `p/ x`. */
  lemma LeadingSpaceLosesItsName()
    ensures ParseAlias("cache/p/ x").Some?
    ensures WriteKey(ParseAlias("cache/p/ x").value) == Some((Cache, "p/x"))
    ensures ReadKey(ParseAlias("cache/p/ x").value) == Some((Cache, "p/ x"))
  {
    hide Cleaned, Normalize, CutOnce, ParseAlias;
    assert Word("cache") && Word("p") && Word("x");
    assert "cache/p/ x" == "cache" + "/" + "p/ x" && "p/ x" == "p" + "/" + " x" && "p/x" == "p" + "/" + "x"
           && " x" == [' '] + "x";
    QualifiedIsClean("cache", "p/ x");
    WordIsNormal("cache");
    WordIsNormal("p");
    WordIsNormal("x");
    SpacedWord("x");
    PairIsNormal("p", " x");
    PairIsNormal("p", "x");
    var p := Parsed(Cache, "p/ x", "p", "x", "cache" + "/" + "p/ x");
    ParseSteps("cache/p/ x", "cache", "p/ x", "p", " x", p, "p/ x");
    assert UnderPartition("p", "x") == "p/x";
    assert ScopedName(p) == Some("p/x");
  }

  lemma ParseSteps(alias: string, top: string, tail: string, front: string, back: string, p: Parsed, again: string)
    requires CutOnce(Cleaned(alias)) == Cut(top, tail) && SpaceNamed(Cleaned(top)) == Some(p.space)
    requires Normalize(tail) == Some(p.relative) && CutOnce(p.relative) == Cut(front, back)
    requires Normalize(front) == Some(p.partition) && Normalize(back) == Some(p.name)
             && Normalize(p.relative) == Some(again)
    requires p.qualified == SpaceName(p.space) + "/" + again
    ensures ParseAlias(alias) == Some(p)
  {
  }

  lemma FrontGoes(s: string)
    requires s != "" && !IsSpaceChar(s[0]) && s[0] != '/' && !IsSpaceChar(s[|s| - 1]) && s[|s| - 1] != '/'
    ensures Cleaned([' '] + s) == s && Cleaned(['/'] + ([' '] + s)) == [' '] + s
  {
    var spaced := [' '] + s;
    var slashed := ['/'] + spaced;
    EdgesKept(s);
    assert spaced[1..] == s && slashed[1..] == spaced;
    assert TrimLeft(spaced, IsSpaceChar) == TrimLeft(s, IsSpaceChar);
    TrimKeeps(slashed, IsSpaceChar);
    assert TrimLeft(slashed, IsSlash) == TrimLeft(spaced, IsSlash) == spaced;
  }

  /** White space in front of the partition does no harm: it goes on both ways. */
  lemma LeadingSpaceOfPartitionIsHarmless()
    ensures ParseAlias("cache// p/x").Some?
    ensures WriteKey(ParseAlias("cache// p/x").value) == Some((Cache, "p/x"))
    ensures ReadKey(ParseAlias("cache// p/x").value) == Some((Cache, "p/x"))
  {
    hide Cleaned, Normalize, CutOnce, ParseAlias, SoundPath;
    assert "/ p/x" == ['/'] + " p/x" && " p/x" == [' '] + "p/x";
    FrontGoes("p/x");
    assert Word("cache") && Word("p") && Word("x");
    assert "cache// p/x" == "cache" + "/" + "/ p/x" && " p/x" == " p" + "/" + "x" && "p/x" == "p" + "/" + "x"
           && " p" == [' '] + "p";
    QualifiedIsClean("cache", "/ p/x");
    WordIsNormal("cache");
    WordIsNormal("p");
    WordIsNormal("x");
    SpacedWord("p");
    PairIsNormal("p", "x");
    CutAt(" p", "x");
    TwoSegments(" p", "x");
    TwoSegments("p", "x");
    NormalizeIs("/ p/x");
    NormalizeIs(" p/x");
    var p := Parsed(Cache, " p/x", "p", "x", "cache" + "/" + "p/x");
    ParseSteps("cache// p/x", "cache", "/ p/x", " p", "x", p, "p/x");
    assert UnderPartition("p", "x") == "p/x";
    assert ScopedName(p) == Some("p/x");
  }

  // ---------------------------------------------------------------- capability scope

  /** The qualified name a key stands for. */
  function KeyText(key: Key): string { SpaceName(key.0) + "/" + key.1 }

  lemma {:induction false} TrimRightStopsAt(s: string, n: nat, drop: char -> bool)
    requires n < |s| && !drop(s[n])
    ensures |TrimRight(s, drop)| > n
  {
    if drop(s[|s| - 1]) { TrimRightStopsAt(s[..|s| - 1], n, drop); }
  }

  /** Cleaning does not take a path out of its partition. */
  lemma CleanedStaysUnder(partition: string, s: string)
    requires partition != "" && '/' !in partition && IsUnder(partition, s)
    requires !IsSpaceChar(partition[0]) && !IsSpaceChar(partition[|partition| - 1])
    ensures IsUnder(partition, Cleaned(s))
  {
    var n := |partition| - 1;
    assert s[n] == partition[n] && partition[n] in partition && s[0] == partition[0] && partition[0] in partition;
    TrimRightStopsAt(s, n, IsSpaceChar);
    TrimRightStopsAt(TrimRight(s, IsSpaceChar), n, IsSlash);
    CleanedBySides(s);
    var r := RightTrim(s);
    assert r <= s && r[0] == s[0];
    NothingToTrimLeft(r);
    hide Cleaned, RightTrim, LeftTrim;
    PrefixUnder(partition, s, r);
  }

  lemma PrefixUnder(partition: string, s: string, r: string)
    requires IsUnder(partition, s) && r <= s && |partition| <= |r|
    ensures IsUnder(partition, r)
  {
    assert r == s[..|r|];
    if |r| == |partition| {
      assert r == partition;
    } else {
      assert r[..|partition| + 1] == s[..|partition| + 1] == partition + "/";
    }
  }

  /** Whatever the alias, a write binds a name under the partition it was parsed with. */
  lemma BoundUnderPartition(alias: string)
    requires ParseAlias(alias).Some? && WriteKey(ParseAlias(alias).value).Some?
    ensures var p := ParseAlias(alias).value;
            && Normalize(p.partition) == Some(p.partition) && '/' !in p.partition
               && IsUnder(p.partition, WriteKey(p).value.1)
            && UnderPartition(p.partition, WriteKey(p).value.1) == WriteKey(p).value.1
  {
    var p := ParseAlias(alias).value;
    var q := PartsOfParsed(alias);
    hide ParseAlias;
    PartitionIsNormal(q.front);
    ScopedNameOf(p);
    var name := Cleaned(Cleaned(p.name));
    hide Cleaned, Normalize, WriteKey;
    CleanedStaysUnder(p.partition, UnderPartition(p.partition, name));
  }

  /** Being in scope is a matter of whole segments. */
  lemma ScopeBySegments(space: Space, tail: string, scope: string)
    requires SoundPath(tail)
    ensures InScope(KeyText((space, tail)), scope) <==> Split(Trim(scope, IsSlash)) <= [SpaceName(space)] + Split(tail)
  {
    var text := KeyText((space, tail));
    EndSlashes(tail);
    TrimKeeps(text, IsSlash);
    CoversBySegments(Trim(scope, IsSlash), text);
    SplitConcat(SpaceName(space), tail);
    SplitOne(SpaceName(space));
  }

  lemma KeyIsSound(p: Parsed)
    requires WriteKey(p).Some?
    ensures SoundPath(WriteKey(p).value.1)
  {
  }

  /** What a capability is checked against. */
  lemma QualifiedOf(alias: string, q: Parts)
    requires ParseAlias(alias).Some? && AreParts(ParseAlias(alias).value, q) && TrimLeft(q.front, IsSpaceChar) != ""
    ensures var p := ParseAlias(alias).value;
            var tail := TrimLeft(q.front, IsSpaceChar) + "/" + RightTrim(q.back);
            p.qualified == KeyText((p.space, tail)) && SoundPath(tail)
  {
    var p := ParseAlias(alias).value;
    NormalizeIs(p.relative);
    NormalizeIs(q.back);
    RightTrimLeaves(q.back);
    CleanedPair(q.front, q.back);
    hide Cleaned, SoundPath, CutOnce, SpaceNamed, SpaceName;
  }

  /** A capability for one whole partition: a write stays in it exactly when the partition segment of the
      alias does not end in white space. */
  lemma PartitionScopeIsKept(alias: string, scope: string)
    requires ParseAlias(alias).Some? && WriteKey(ParseAlias(alias).value).Some?
    requires InScope(ParseAlias(alias).value.qualified, scope) && |Split(Trim(scope, IsSlash))| == 2
    ensures var p := ParseAlias(alias).value;
            CutOnce(p.relative).Cut? && (InScope(KeyText(WriteKey(p).value), scope)
              <==> !SpaceLast(CutOnce(p.relative).front))
  {
    var p := ParseAlias(alias).value;
    var q := PartsOfParsed(alias);
    hide InScope, Trim, Cleaned, CutOnce, Split, SoundPath, SpaceName, IsUnder, UnderPartition, Normalize, ParseAlias,
      WriteKey, KeyText;
    KeyIsSound(p);
    QualifiedOf(alias, q);
    BoundUnderPartition(alias);
    PartitionIsNormal(q.front);
    LastOfTrimLeft(q.front);
    var left, back, name := TrimLeft(q.front, IsSpaceChar), RightTrim(q.back), WriteKey(p).value.1;
    KeySpace(p);
    assert WriteKey(p).value == (p.space, name);
    assert '/' !in left by { TrimLeftIsSuffix(q.front, IsSpaceChar); }
    ScopeBySegments(p.space, left + "/" + back, scope);
    ScopeBySegments(p.space, name, scope);
    SplitConcat(left, back);
    SplitOne(left);
    SplitOne(p.partition);
    ScopedBySegments(p.partition, name);
    TrimRightShortens(left, IsSpaceChar);
    hide TrimLeft, TrimRight, RightTrim;
    TwoSegmentScope(Split(Trim(scope, IsSlash)), SpaceName(p.space), left, Split(back), p.partition, Split(name));
  }

  lemma KeySpace(p: Parsed)
    requires WriteKey(p).Some?
    ensures WriteKey(p).value.0 == p.space
  {
  }

  lemma TwoSegmentScope(scope: seq<string>, space: string, left: string, rest: seq<string>, partition: string,
                        name: seq<string>)
    requires |scope| == 2 && scope <= [space] + ([left] + rest) && [partition] <= name
    ensures scope <= [space] + name <==> left == partition
  {
    assert ([space] + ([left] + rest))[1] == left;
    assert scope == [space, left];
    assert ([space] + name)[1] == name[0] == partition;
  }

  /** On canonical aliases, whatever the scope: a write stays in it exactly when the name does not repeat the
      partition, or the scope covers one repeated segment only. */
  lemma WriteStaysInScope(segments: seq<string>, scope: string)
    requires Qualified(segments) && InScope(Join(segments), scope)
    ensures ParseAlias(Join(segments)).Some? && WriteKey(ParseAlias(Join(segments)).value).Some?
    ensures var n := |Split(Trim(scope, IsSlash))|;
            InScope(KeyText(WriteKey(ParseAlias(Join(segments)).value).value), scope)
            <==> segments[1] != segments[2]
                 || (n < |segments| && forall i | 1 <= i < n :: segments[i] == segments[i + 1])
  {
    hide ParseAlias, WriteKey, InScope, Trim, Cleaned, Normalize, Canonical, Join, Split, SoundPath, KeyText,
      SpaceName, SpaceNamed;
    CanonicalBinding(segments);
    var p := ParseAlias(Join(segments)).value;
    var twice := segments[1] == segments[2];
    var tail := segments[if twice then 2 else 1..];
    CanonicalParts(segments);
    CanonicalIsSound(segments[1..]);
    CanonicalIsSound(segments[2..]);
    hide Qualified;
    ScopeBySegments(p.space, Join(segments[1..]), scope);
    ScopeBySegments(p.space, Join(tail), scope);
    assert [segments[0]] + segments[1..] == segments;
    RepeatedScope(Split(Trim(scope, IsSlash)), segments);
  }

  lemma CanonicalIsSound(segments: seq<string>)
    requires Canonical(segments)
    ensures SoundPath(Join(segments)) && Split(Join(segments)) == segments
  {
    SplitJoin(segments);
    JoinEnds(segments);
  }

  lemma RepeatedScope(scope: seq<string>, segments: seq<string>)
    requires |segments| >= 3 && scope <= segments && |scope| >= 1
    ensures scope <= [segments[0]] + segments[2..]
       <==> |scope| < |segments| && forall i | 1 <= i < |scope| :: segments[i] == segments[i + 1]
  {
    var bound := [segments[0]] + segments[2..];
    assert |bound| == |segments| - 1;
    assert forall i | 1 <= i < |bound| :: bound[i] == segments[i + 1];
    assert forall i | 0 <= i < |scope| :: scope[i] == segments[i];
    if |scope| < |segments| && forall i | 1 <= i < |scope| :: segments[i] == segments[i + 1] {
      assert forall i | 0 <= i < |scope| :: scope[i] == bound[i];
      assert scope == bound[..|scope|];
    }
    if scope <= bound {
      forall i | 1 <= i < |scope| ensures segments[i] == segments[i + 1] { assert scope[i] == bound[i]; }
    }
  }

  lemma CanonicalBinding(segments: seq<string>)
    requires Qualified(segments)
    ensures ParseAlias(Join(segments)).Some?
    ensures var p := ParseAlias(Join(segments)).value;
            && p.qualified == Join(segments) == KeyText((p.space, Join(segments[1..])))
               && SpaceName(p.space) == segments[0]
            && WriteKey(p) == Some((p.space, Join(segments[if segments[1] == segments[2] then 2 else 1..])))
  {
    CanonicalKeysAgreeExactlyWhen(segments);
    ParseCanonical(segments);
    PartsOfCanonical(segments);
    CanonicalParts(segments);
    assert '/' !in segments[1] && segments[2..][0] == segments[2];
    hide Cleaned, Normalize, CutOnce, Join, ParseAlias, Canonical;
    UnderExactlyWhen(segments[1], segments[2..]);
    hide IsUnder;
  }

  /** Scoped to `cache/p/p`, a write to `cache/p/p/x` binds `cache/p/x`, which is outside. */
  lemma WriteLeavesScope()
    ensures ParseAlias("cache/p/p/x").Some? && InScope(ParseAlias("cache/p/p/x").value.qualified, "cache/p/p")
    ensures WriteKey(ParseAlias("cache/p/p/x").value) == Some((Cache, "p/x")) && !InScope("cache/p/x", "cache/p/p")
  {
    var segments, scope := ["cache", "p", "p", "x"], "cache/p/p";
    hide ParseAlias, Cleaned, Normalize, WriteKey, ReadKey, InScope, Split, Trim;
    RepeatedPartitionLosesItsName();
    CanonicalFour(segments);
    SplitThree("cache", "p", "p");
    EndsTight(scope);
    assert scope == "cache" + "/" + ("p" + "/" + "p") && "cache/p/p/x" == scope + "/" + "x";
    WholeInScope(scope, "x");
    KeyTextOf();
    hide KeyText, Canonical, Qualified, Join, SpaceNamed, SpaceName;
    FourthSegmentOut(segments, scope);
  }

  lemma EndsTight(scope: string)
    requires scope != "" && scope[0] != '/' && scope[|scope| - 1] != '/'
    ensures Trim(scope, IsSlash) == scope
  {
    TrimKeeps(scope, IsSlash);
  }

  lemma FourthSegmentOut(segments: seq<string>, scope: string)
    requires Qualified(segments) && |segments| == 4 && segments[1] == segments[2] != segments[3]
    requires |Split(Trim(scope, IsSlash))| == 3 && InScope(Join(segments), scope)
    ensures ParseAlias(Join(segments)).Some? && ParseAlias(Join(segments)).value.qualified == Join(segments)
    ensures WriteKey(ParseAlias(Join(segments)).value).Some?
    ensures !InScope(KeyText(WriteKey(ParseAlias(Join(segments)).value).value), scope)
  {
    hide ParseAlias, WriteKey, InScope, Trim, Split, KeyText, Join, Qualified;
    CanonicalBinding(segments);
    WriteStaysInScope(segments, scope);
  }

  lemma KeyTextOf()
    ensures KeyText((Cache, "p/x")) == "cache/p/x"
  {
    assert "cache" + "/" + "p/x" == "cache/p/x";
  }

  lemma WholeInScope(scope: string, name: string)
    requires scope != "" && scope[0] != '/' && scope[|scope| - 1] != '/' && name != "" && name[|name| - 1] != '/'
    ensures InScope(scope + "/" + name, scope)
  {
    TrimKeeps(scope, IsSlash);
    TrimKeeps(scope + "/" + name, IsSlash);
  }

  lemma SplitThree(a: string, b: string, c: string)
    requires '/' !in a && '/' !in b && '/' !in c
    ensures Split(a + "/" + (b + "/" + c)) == [a, b, c]
  {
    SplitConcat(a, b + "/" + c);
    SplitConcat(b, c);
    SplitOne(a);
    SplitOne(b);
    SplitOne(c);
  }

  lemma CanonicalFour(segments: seq<string>)
    requires segments == ["cache", "p", "p", "x"]
    ensures Qualified(segments) && Join(segments) == "cache/p/p/x"
  {
    assert segments[1..] == ["p", "p", "x"] && segments[1..][1..] == ["p", "x"] && segments[1..][1..][1..] == ["x"];
    assert Join(["x"]) == "x" && Join(["p", "x"]) == "p/x" && Join(["p", "p", "x"]) == "p/p/x";
  }
}
