/** The pilot's URLs spelled out: which page segments are numbers, what is fetched for a legacy image, where it is
    kept, and percent-decoding as the inverse of percent-encoding. */
module PilotFigures {
  import opened Model
  import opened RegistrySpec
  import opened Paths
  import opened Pilot

  // ---------------------------------------------------------------- page numbers

  function DigitChar(n: nat): char
    requires n < 10
  {
    '0' + n as char
  }

  function Decimal(n: nat): string {
    if n < 10 then [DigitChar(n)] else Decimal(n / 10) + [DigitChar(n % 10)]
  }

  lemma {:induction false} DecimalIsDigits(n: nat)
    ensures Decimal(n) != "" && Digits(Decimal(n)) && (n > 0 ==> Decimal(n)[0] != '0')
  {
    if n >= 10 { DecimalIsDigits(n / 10); }
  }

  lemma {:induction false} DigitsAreDecimal(s: string) returns (n: nat)
    requires s != "" && Digits(s) && s[0] != '0'
    ensures n > 0 && s == Decimal(n)
  {
    assert Digit(s[|s| - 1]);
    var last := s[|s| - 1] as int - '0' as int;
    assert DigitChar(last) == s[|s| - 1];
    if |s| == 1 {
      n := last;
    } else {
      var front := DigitsAreDecimal(s[..|s| - 1]);
      n := 10 * front + last;
      assert n / 10 == front && n % 10 == last;
      assert s == s[..|s| - 1] + [s[|s| - 1]];
    }
  }

  /** A page segment is the letter f and a positive number without leading zeros. */
  lemma PageNumbersAreNumerals(s: string)
    ensures PageNumber(s) <==> exists n: nat :: n > 0 && s == "f" + Decimal(n)
  {
    if PageNumber(s) {
      assert s[1..] == [s[1]] + s[2..];
      var n := DigitsAreDecimal(s[1..]);
      assert s == "f" + s[1..];
    }
    if n: nat :| n > 0 && s == "f" + Decimal(n) {
      DecimalIsDigits(n);
      assert s[1..] == Decimal(n) && s[2..] == Decimal(n)[1..] && s[1] == Decimal(n)[0];
      assert Digit(s[1]);
    }
  }

  // ---------------------------------------------------------------- legacy images

  function LegacyPath(name: string, page: string): string {
    "/iiif/ark:/12148/" + name + "/" + page + "/full/full/0/native.jpg"
  }

  function V3Path(name: string, page: string): string {
    "/iiif/image/v3/ark:/12148/" + name + "/" + page + "/full/max/0/default.jpg"
  }

  lemma JoinNext(part: string, rest: seq<string>)
    requires rest != []
    ensures Join([part] + rest) == part + "/" + Join(rest)
  {
    assert ([part] + rest)[1..] == rest;
  }

  lemma JoinTail(a: string, b: string, c: string, d: string)
    ensures Join([a, b, c, d]) == a + "/" + b + "/" + c + "/" + d
  {
    JoinNext(c, [d]);
    assert [c] + [d] == [c, d];
    JoinNext(b, [c, d]);
    assert [b] + [c, d] == [b, c, d];
    JoinNext(a, [b, c, d]);
    assert [a] + [b, c, d] == [a, b, c, d];
    assert Join([d]) == d;
  }

  lemma JoinImage(front: seq<string>, name: string, page: string, a: string, b: string, c: string, d: string)
    requires front != []
    ensures Join(front + [name, page, a, b, c, d])
         == Join(front) + "/" + name + "/" + page + "/" + a + "/" + b + "/" + c + "/" + d
  {
    var rest := [a, b, c, d];
    JoinTail(a, b, c, d);
    JoinNext(page, rest);
    assert [page] + rest == [page, a, b, c, d];
    JoinNext(name, [page, a, b, c, d]);
    assert [name] + [page, a, b, c, d] == [name, page, a, b, c, d];
    JoinConcat(front, [name, page, a, b, c, d]);
    hide Join;
  }

  lemma Regroup(front: string, name: string, page: string, a: string, b: string, c: string, d: string)
    ensures front + "/" + name + "/" + page + "/" + a + "/" + b + "/" + c + "/" + d
         == (front + "/") + name + "/" + page + ("/" + a + "/" + b + "/" + c + "/" + d)
  {
    var start := front + "/" + name + "/" + page;
    assert start + "/" + a == start + ("/" + a);
    assert start + ("/" + a) + "/" + b == start + ("/" + a + "/" + b);
    assert start + ("/" + a + "/" + b) + "/" + c == start + ("/" + a + "/" + b + "/" + c);
    assert start + ("/" + a + "/" + b + "/" + c) + "/" + d == start + ("/" + a + "/" + b + "/" + c + "/" + d);
  }

  lemma LegacyFront()
    ensures Join(LEGACY_FRONT) + "/" == "/iiif/ark:/12148/"
  {
    JoinTail("", "iiif", "ark:", "12148");
    hide Join;
    assert "" + "/" + "iiif" + "/" + "ark:" + "/" + "12148" + "/" == "/iiif/ark:/12148/";
  }

  lemma V3Front()
    ensures Join(V3_FRONT) + "/" == "/iiif/image/v3/ark:/12148/"
  {
    JoinTail("image", "v3", "ark:", "12148");
    var rest := ["image", "v3", "ark:", "12148"];
    JoinNext("iiif", rest);
    JoinNext("", ["iiif"] + rest);
    assert [""] + (["iiif"] + rest) == V3_FRONT;
    hide Join;
    V3FrontText();
  }

  lemma V3BackText()
    ensures "image" + "/" + "v3" + "/" + "ark:" + "/" + "12148" == "image/v3/ark:/12148"
  {
  }

  lemma V3FrontText()
    ensures "" + "/" + ("iiif" + "/" + ("image" + "/" + "v3" + "/" + "ark:" + "/" + "12148")) + "/"
         == "/iiif/image/v3/ark:/12148/"
  {
    V3BackText();
    assert "iiif" + "/" + "image/v3/ark:/12148" == "iiif/image/v3/ark:/12148";
    assert "" + "/" + "iiif/image/v3/ark:/12148" + "/" == "/iiif/image/v3/ark:/12148/";
  }

  lemma TailsSpelledOut()
    ensures "/" + "full" + "/" + "full" + "/" + "0" + "/" + "native.jpg" == "/full/full/0/native.jpg"
    ensures "/" + "full" + "/" + "max" + "/" + "0" + "/" + "default.jpg" == "/full/max/0/default.jpg"
  {
  }

  lemma PathsSpelledOut(name: string, page: string)
    ensures Join(LegacyFull(name, page)) == LegacyPath(name, page)
    ensures Join(V3Full(name, page)) == V3Path(name, page)
  {
    hide Join;
    JoinImage(LEGACY_FRONT, name, page, "full", "full", "0", "native.jpg");
    JoinImage(V3_FRONT, name, page, "full", "max", "0", "default.jpg");
    Regroup(Join(LEGACY_FRONT), name, page, "full", "full", "0", "native.jpg");
    Regroup(Join(V3_FRONT), name, page, "full", "max", "0", "default.jpg");
    LegacyFront();
    V3Front();
    TailsSpelledOut();
  }

  /** The image a legacy address names in full. */
  ghost predicate LegacyImage(t: Target, name: string, page: string) {
    t.host == "gallica.bnf.fr" && Name(name) && PageNumber(page) && t.path == LegacyPath(name, page)
  }

  lemma LegacyInFigures(t: Target)
    ensures IsLegacyFull(t) <==> exists name, page :: LegacyImage(t, name, page)
    ensures IsLegacyFull(t) ==> LegacyImage(t, Split(t.path)[4], Split(t.path)[5])
    ensures forall name, page :: LegacyImage(t, name, page) ==> Split(t.path)[4..6] == [name, page]
  {
    var parts := Split(t.path);
    JoinSplit(t.path);
    if IsLegacyFull(t) { PathsSpelledOut(parts[4], parts[5]); }
    forall name, page | LegacyImage(t, name, page)
      ensures IsLegacyFull(t) && parts[4..6] == [name, page]
    {
      PathsSpelledOut(name, page);
      PartsOfLegacy(name, page);
      hide PageNumber, Name, Split, Join, LegacyPath;
      assert parts == LegacyFull(name, page);
    }
    hide Split, Join, PageNumber, Name;
  }

  lemma PartsOfLegacy(name: string, page: string)
    requires Name(name) && PageNumber(page)
    ensures Split(Join(LegacyFull(name, page))) == LegacyFull(name, page)
  {
    NamesHaveNoSlash(name, page);
    SplitJoin(LegacyFull(name, page));
  }

  lemma NamesHaveNoSlash(name: string, page: string)
    requires Name(name) && PageNumber(page)
    ensures '/' !in name && '/' !in page
  {
    assert page == [page[0], page[1]] + page[2..];
  }

  /** A legacy image in full is fetched from the current endpoint at its largest size; everything else is fetched as
      it stands. */
  lemma FetchInFigures(t: Target)
    ensures forall name, page :: LegacyImage(t, name, page) ==>
              FetchTarget(t) == Target("openapi.bnf.fr", V3Path(name, page))
    ensures (forall name, page :: !LegacyImage(t, name, page)) ==> FetchTarget(t) == t
  {
    LegacyInFigures(t);
    forall name, page | LegacyImage(t, name, page)
      ensures FetchTarget(t) == Target("openapi.bnf.fr", V3Path(name, page))
    {
      PathsSpelledOut(name, page);
      assert Split(t.path)[4] == Split(t.path)[4..6][0] && Split(t.path)[5] == Split(t.path)[4..6][1];
      hide LegacyImage;
    }
    hide LegacyImage;
  }

  /** It is kept in the pilot's partition, under the path that was fetched, with the host in front if it is not the
      legacy one. */
  lemma AliasInFigures(t: Target)
    requires Accepted(t.host, t.path)
    ensures var from := FetchTarget(t);
            && from.path != ""
            && RelativeAlias(t) == "gallica-pilot/" + (if from.host == "gallica.bnf.fr" then "" else from.host + "/")
                                   + from.path[1..]
  {
    AliasIsOfFetched(t);
    FetchIsAccepted(t);
    AcceptedIsPlain(FetchTarget(t).host, FetchTarget(t).path);
    hide Accepted, RelativeAlias, FetchTarget;
    assert PARTITION + "/" == "gallica-pilot/";
  }

  // ---------------------------------------------------------------- percent-encoding

  function HexChar(n: nat, upper: bool): char
    requires n < 16
  {
    if n < 10 then '0' + n as char else (if upper then 'A' else 'a') + (n - 10) as char
  }

  function Encoded(c: char, upper: bool): string
    requires c as int < 256
  {
    ['%', HexChar(c as int / 16, upper), HexChar(c as int % 16, upper)]
  }

  predicate Latin(s: string) {
    forall i | 0 <= i < |s| :: s[i] as int < 256
  }

  /** Every character that is marked is written as an escape. */
  function Encode(s: string, marked: char -> bool, upper: bool): string
    requires Latin(s)
  {
    if s == "" then ""
    else (if marked(s[0]) then Encoded(s[0], upper) else [s[0]]) + Encode(s[1..], marked, upper)
  }

  lemma HexIsRead(n: nat, upper: bool)
    requires n < 16
    ensures Hex(HexChar(n, upper)) && HexValue(HexChar(n, upper)) == n
  {
  }

  lemma DecodedIsOriginal(c: char, upper: bool)
    requires c as int < 256
    ensures Escape(Encoded(c, upper)) && Decoded(Encoded(c, upper)) == c
  {
    HexIsRead(c as int / 16, upper);
    HexIsRead(c as int % 16, upper);
    hide HexChar, HexValue, Hex;
  }

  lemma {:induction false} DecodingUndoesEncoding(s: string, marked: char -> bool, upper: bool)
    requires marked('%') && Latin(s)
    ensures Unquote(Encode(s, marked, upper)) == s
  {
    if s != "" {
      var rest := Encode(s[1..], marked, upper);
      var all := Encode(s, marked, upper);
      DecodingUndoesEncoding(s[1..], marked, upper);
      assert s == [s[0]] + s[1..];
      if marked(s[0]) {
        DecodedIsOriginal(s[0], upper);
        hide HexChar, HexValue, Hex;
        assert all[0] == '%' && all[1] == Encoded(s[0], upper)[1] && all[2] == Encoded(s[0], upper)[2];
        assert all[3..] == rest;
      } else {
        assert all[0] == s[0] && all[1..] == rest;
      }
    }
  }

  // ---------------------------------------------------------------- shapes

  lemma NumbersStartWithDigits(s: string)
    requires Number(s)
    ensures Digit(s[0])
  {
    if !Digits(s) {
      var i :| 0 < i < |s| - 1 && s[i] == '.' && Digits(s[..i]) && Digits(s[i + 1..]);
      assert s[..i][0] == s[0];
    }
  }

  lemma BoxesStartWithDigits(s: string)
    requires Box(s)
    ensures Digit(s[0])
  {
    var a, b, c, d :| Number(a) && Number(b) && Number(c) && Number(d) && s == a + "," + b + "," + c + "," + d;
    NumbersStartWithDigits(a);
    assert s[0] == a[0];
  }

  lemma ExtentsStartPlain(s: string)
    requires Extent(s)
    ensures s != "" && (Digit(s[0]) || s[0] == ',')
  {
    var w, h :| Digits(w) && Digits(h) && (w != "" || h != "") && s == w + "," + h;
    assert s[0] == if w == "" then ',' else w[0];
  }

  /** A mark in front: a mirrored rotation, a size to fit into, percentages of the image. */
  lemma MarkedShapes(s: string)
    ensures Rotation("!" + s) <==> Number(s)
    ensures SizeSegment("!" + s) <==> Extent(s)
    ensures SizeSegment("pct:" + s) <==> Number(s)
    ensures Region("pct:" + s) <==> Box(s)
  {
    assert ("!" + s)[1..] == s && ("!" + s)[0] == '!' && ("pct:" + s)[4..] == s && ("pct:" + s)[0] == 'p';
    if Number("!" + s) { NumbersStartWithDigits("!" + s); }
    if Extent("!" + s) { ExtentsStartPlain("!" + s); }
    if Extent("pct:" + s) { ExtentsStartPlain("pct:" + s); }
    if Box("pct:" + s) { BoxesStartWithDigits("pct:" + s); }
    hide Number, Extent, Box;
    assert "pct:" + s != "full" && "pct:" + s != "max" && "pct:" + s != "square" by {
      assert ("pct:" + s)[0] == 'p' && "full"[0] == 'f' && "max"[0] == 'm' && "square"[0] == 's';
    }
  }

  /** A number in front: plain rotations are numbers, sizes have a comma or a name. */
  lemma PlainShapes(s: string)
    requires s != "" && Digit(s[0])
    ensures Rotation(s) <==> Number(s)
    ensures SizeSegment(s) <==> Extent(s)
    ensures Region(s) <==> Box(s)
  {
    assert "full"[0] == 'f' && "max"[0] == 'm' && "square"[0] == 's';
    hide Number, Extent, Box;
  }

  /** The legacy host serves the same files as the current one, but for the last format. */
  lemma FilesInFigures(s: string)
    ensures FileName(s, false) <==> FileName(s, true) && !(exists q :: s == q + ".webp")
  {
    forall q, e | e in ["jpg", "jpeg", "tif", "tiff", "webp"] && s == q + "." + e
      ensures |s| > 0 && (s[|s| - 1] == 'p' <==> e == "webp")
    {
      assert s[|s| - 1] == e[|e| - 1];
    }
    if q :| s == q + ".webp" { assert s[|s| - 1] == ".webp"[4]; }
    if FileName(s, true) && !FileName(s, false) {
      var q, e :| q in ["native", "default", "color", "gray", "bitonal"] && e in ["jpg", "jpeg", "tif", "tiff", "webp"]
                  && s == q + "." + e;
      assert s == q + ".webp";
    }
  }

  /** A read names its host first and has no query. */
  lemma ReadInFigures(path: string, query: string)
    ensures RequireRead(path, query) ==
              if query == "" && ("/gallica.bnf.fr/" <= path || "/openapi.bnf.fr/" <= path) then
                Require("https:/" + path)
              else None
  {
    assert "/" + HOST + "/" == "/gallica.bnf.fr/" && "/" + V3_HOST + "/" == "/openapi.bnf.fr/";
  }

  /** The fetcher drops slashes at the end of a path, but for a path that is one slash. */
  lemma NoTrailingSlash(raw: string) returns (host: string, path: string)
    requires NormalizeUrl(raw).Some?
    ensures NormalizeUrl(raw).value == "https://" + host + path && '/' !in host
    ensures path == "/" || path == "" || path[|path| - 1] != '/'
  {
    var u := SplitHttps(Trim(raw, IsSpaceChar));
    var full := if Unquote(u.path) == "" then "/" else Unquote(u.path);
    host, path := u.host, if |full| > 1 && full[|full| - 1] == '/' then TrimRight(full, IsSlash) else full;
    var rest := Trim(raw, IsSpaceChar)[8..];
    FirstSegmentIsFirst(rest);
    assert host == Lower(FirstSegment(rest));
    forall i | 0 <= i < |host| ensures host[i] != '/' { assert host[i] == LowerChar(Split(rest)[0][i]); }
  }

  function UpperChar(c: char): char {
    if 'a' <= c <= 'z' then (c as int - 32) as char else c
  }

  /** The same letters, some of them capital. */
  predicate SameButForCase(s: string, t: string) {
    |s| == |t| && forall i | 0 <= i < |s| :: t[i] == s[i] || t[i] == UpperChar(s[i])
  }

  /** Scheme and host may be written in capitals: only the path is compared as it stands. */
  lemma CaseIsIgnored(s: string, t: string)
    requires SameButForCase(s, t)
    ensures Lower(t) == Lower(s)
    ensures forall c <- Lower(s) :: !('A' <= c <= 'Z')
  {
    forall i | 0 <= i < |s| ensures LowerChar(t[i]) == LowerChar(s[i]) {
      assert t[i] == s[i] || t[i] == UpperChar(s[i]);
    }
    forall c <- Lower(s) ensures !('A' <= c <= 'Z') {
      var i :| 0 <= i < |s| && Lower(s)[i] == c;
      assert c == LowerChar(s[i]);
    }
  }
}
