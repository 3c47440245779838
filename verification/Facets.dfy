/** Rich-text facets (src/bluesky/convert.rs): byte ranges of a post's text become links. */
module Facets {
  import opened Basics
  import opened Sorting
  import opened Html

  datatype Feature = Unrecognised | Link(uri: string) | Mention(did: string) | Tag(tag: string)

  datatype Facet = Facet(byteStart: nat, byteEnd: nat, features: seq<Feature>)

  const BSKY_APP_HOST := "bsky.app"

  // ---- UTF-8 offsets --------------------------------------------------------------------------

  function Utf8(c: char): (bytes: seq<nat>)
    ensures 1 <= |bytes| <= 4
    ensures forall i :: 0 <= i < |bytes| ==> bytes[i] < 256
  {
    var n := c as int;
    if n < 0x80 then [n]
    else if n < 0x800 then [0xC0 + n / 64, 0x80 + n % 64]
    else if n < 0x10000 then [0xE0 + n / 4096, 0x80 + n / 64 % 64, 0x80 + n % 64]
    else [0xF0 + n / 262144, 0x80 + n / 4096 % 64, 0x80 + n / 64 % 64, 0x80 + n % 64]
  }

  function Width(c: char): (w: nat)
    ensures w >= 1
  {
    |Utf8(c)|
  }

  function ByteLength(text: string): nat {
    if text == [] then 0 else Width(text[0]) + ByteLength(text[1..])
  }

  /** The character index at a byte offset; `None` inside a character or past the end. */
  function CharIndex(text: string, offset: nat): (index: Option<nat>)
    ensures index.Some? ==> index.value <= |text|
  {
    if offset == 0 then Some(0)
    else if text == [] || offset < Width(text[0]) then None
    else match CharIndex(text[1..], offset - Width(text[0])) case None => None case Some(i) => Some(i + 1)
  }

  /** The text between two byte offsets, as `str::get` defines it. */
  function Get(text: string, start: nat, end: nat): Option<string> {
    match (CharIndex(text, start), CharIndex(text, end))
    case (Some(i), Some(j)) => if i <= j then Some(text[i..j]) else None
    case _ => None
  }

  function OrEmpty(text: Option<string>): string { if text.Some? then text.value else "" }

  lemma {:induction false} OffsetsOrdered(text: string, a: nat, b: nat)
    requires CharIndex(text, a).Some? && CharIndex(text, b).Some?
    ensures a <= b <==> CharIndex(text, a).value <= CharIndex(text, b).value
  {
    if a > 0 && b > 0 {
      OffsetsOrdered(text[1..], a - Width(text[0]), b - Width(text[0]));
    }
  }

  lemma {:induction false} EndOffset(text: string)
    ensures CharIndex(text, ByteLength(text)) == Some(|text|)
  {
    if text != [] {
      EndOffset(text[1..]);
    }
  }

  /** Character-aligned, ordered offsets always yield a slice. */
  lemma AlignedGet(text: string, a: nat, b: nat)
    requires CharIndex(text, a).Some? && CharIndex(text, b).Some? && a <= b
    ensures CharIndex(text, a).value <= CharIndex(text, b).value
    ensures Get(text, a, b) == Some(text[CharIndex(text, a).value..CharIndex(text, b).value])
  {
    OffsetsOrdered(text, a, b);
  }

  // ---- link targets --------------------------------------------------------------------------------

  predicate Unreserved(byte: nat) {
    || '0' as int <= byte <= '9' as int || 'A' as int <= byte <= 'Z' as int || 'a' as int <= byte <= 'z' as int
    || byte == '-' as int || byte == '_' as int || byte == '.' as int || byte == '~' as int
  }

  function HexDigit(n: nat): (c: char)
    requires n < 16
    ensures c != '\n'
  {
    if n < 10 then ('0' as int + n) as char else ('A' as int + (n - 10)) as char
  }

  function EncodeBytes(bytes: seq<nat>): (r: string)
    requires forall i :: 0 <= i < |bytes| ==> bytes[i] < 256
    ensures '\n' !in r
  {
    if bytes == [] then []
    else (if Unreserved(bytes[0]) then [bytes[0] as char]
          else ['%', HexDigit(bytes[0] / 16), HexDigit(bytes[0] % 16)]) + EncodeBytes(bytes[1..])
  }

  function UrlEncode(s: string): (r: string)
    ensures '\n' !in r
  {
    if s == [] then [] else EncodeBytes(Utf8(s[0])) + UrlEncode(s[1..])
  }

  function ProfilePrefix(): string { "https://" + BSKY_APP_HOST + "/profile/" }

  function HashtagPrefix(): string { "https://" + BSKY_APP_HOST + "/hashtag/" }

  /** The target of the first feature the renderer recognises. */
  function Target(features: seq<Feature>): Option<string> {
    if features == [] then None
    else match features[0]
      case Unrecognised => Target(features[1..])
      case Link(uri) => Some(uri)
      case Mention(did) => Some(ProfilePrefix() + did)
      case Tag(tag) => Some(HashtagPrefix() + UrlEncode(tag))
  }

  function FacetHtml(features: seq<Feature>, escaped: string): string {
    match Target(features)
    case None => escaped
    case Some(url) => Anchor(HtmlEscape(url), escaped)
  }

  // ---- rendering ---------------------------------------------------------------------------------------

  function TextToHtml(text: string): string {
    if text == "" then "" else "<p>" + Breaks(Linkify(HtmlEscape(text))) + "</p>"
  }

  predicate StartLeq(a: Facet, b: Facet) { a.byteStart <= b.byteStart }

  function PlainHtml(chunk: string): string { Linkify(HtmlEscape(chunk)) }

  /** Whether the walk renders `facet` when the text before `cursor` is done. */
  predicate Accepts(text: string, cursor: nat, facet: Facet) {
    && cursor <= facet.byteStart < facet.byteEnd <= ByteLength(text)
    && Get(text, facet.byteStart, facet.byteEnd).Some?
  }

  function Piece(text: string, cursor: nat, facet: Facet): string
    requires Accepts(text, cursor, facet)
  {
    (if cursor < facet.byteStart then PlainHtml(OrEmpty(Get(text, cursor, facet.byteStart))) else "")
    + FacetHtml(facet.features, HtmlEscape(Get(text, facet.byteStart, facet.byteEnd).value))
  }

  function Walk(text: string, facets: seq<Facet>, cursor: nat): string
    decreases facets
  {
    if facets == [] then
      if cursor < ByteLength(text) then PlainHtml(OrEmpty(Get(text, cursor, ByteLength(text)))) else ""
    else if Accepts(text, cursor, facets[0]) then
      Piece(text, cursor, facets[0]) + Walk(text, facets[1..], facets[0].byteEnd)
    else Walk(text, facets[1..], cursor)
  }

  function TextWithFacetsToHtml(text: string, facets: seq<Facet>): string {
    if text == "" then ""
    else if facets == [] then TextToHtml(text)
    else "<p>" + Breaks(Walk(text, SortBy(StartLeq, facets), 0)) + "</p>"
  }

  /** The facets the walk renders. */
  function Accepted(text: string, facets: seq<Facet>, cursor: nat): seq<Facet>
    decreases facets
  {
    if facets == [] then []
    else if Accepts(text, cursor, facets[0]) then [facets[0]] + Accepted(text, facets[1..], facets[0].byteEnd)
    else Accepted(text, facets[1..], cursor)
  }

  /** Accepted facets are non-empty, character-aligned, disjoint and in increasing order. */
  lemma {:induction false} AcceptedAreDisjoint(text: string, facets: seq<Facet>, cursor: nat)
    ensures InOrder(text, cursor, Accepted(text, facets, cursor))
    decreases facets
  {
    if facets != [] {
      AcceptedAreDisjoint(text, facets[1..], if Accepts(text, cursor, facets[0]) then facets[0].byteEnd else cursor);
    }
  }

  ghost predicate InOrder(text: string, cursor: nat, a: seq<Facet>) {
    && (forall i :: 0 <= i < |a| ==> Accepts(text, cursor, a[i]))
    && (forall i, j :: 0 <= i < j < |a| ==> a[i].byteEnd <= a[j].byteStart)
  }

  /** No slice the walk takes is missing: `unwrap_or("")` never falls back. */
  ghost predicate NeverFallsBack(text: string, facets: seq<Facet>, cursor: nat)
    decreases facets
  {
    if facets == [] then cursor < ByteLength(text) ==> Get(text, cursor, ByteLength(text)).Some?
    else if Accepts(text, cursor, facets[0]) then
      && (cursor < facets[0].byteStart ==> Get(text, cursor, facets[0].byteStart).Some?)
      && NeverFallsBack(text, facets[1..], facets[0].byteEnd)
    else NeverFallsBack(text, facets[1..], cursor)
  }

  lemma {:induction false} SlicesExist(text: string, facets: seq<Facet>, cursor: nat)
    requires CharIndex(text, cursor).Some? && cursor <= ByteLength(text)
    ensures NeverFallsBack(text, facets, cursor)
    decreases facets
  {
    if facets == [] {
      EndOffset(text);
      AlignedGet(text, cursor, ByteLength(text));
    } else if Accepts(text, cursor, facets[0]) {
      AlignedGet(text, cursor, facets[0].byteStart);
      SlicesExist(text, facets[1..], facets[0].byteEnd);
    } else {
      SlicesExist(text, facets[1..], cursor);
    }
  }

  lemma FallbacksAreNeverTaken(text: string, facets: seq<Facet>)
    ensures NeverFallsBack(text, SortBy(StartLeq, facets), 0)
  {
    SlicesExist(text, SortBy(StartLeq, facets), 0);
  }

  // ---- what a reader sees -------------------------------------------------------------------------------

  /** What the facet's target adds to the visible text. */
  function Spill(facet: Facet): string {
    match Target(facet.features)
    case Some(url) => if '\n' in url then AfterNewline(url) + TailAttributes() + ">" else ""
    case None => ""
  }

  /** The text from character `i` on with the spill of every accepted facet inserted before it. */
  function Exposed(text: string, facets: seq<Facet>, cursor: nat): string
    requires CharIndex(text, cursor).Some?
    decreases facets
  {
    var i := CharIndex(text, cursor).value;
    if facets == [] then text[i..]
    else if Accepts(text, cursor, facets[0]) then
      OffsetsOrdered(text, cursor, facets[0].byteStart);
      OffsetsOrdered(text, facets[0].byteStart, facets[0].byteEnd);
      text[i..CharIndex(text, facets[0].byteStart).value] + (Spill(facets[0])
      + (text[CharIndex(text, facets[0].byteStart).value..CharIndex(text, facets[0].byteEnd).value]
      + Exposed(text, facets[1..], facets[0].byteEnd)))
    else Exposed(text, facets[1..], cursor)
  }

  function Read(html: string): string { Unescape(Erase(html)) }

  lemma {:induction false} EscapeKeepsNewlines(s: string)
    ensures '\n' in HtmlEscape(s) <==> '\n' in s
    ensures '\n' in s ==> AfterNewline(HtmlEscape(s)) == HtmlEscape(AfterNewline(s))
  {
    if s != [] {
      EscapeKeepsNewlines(s[1..]);
      assert s == [s[0]] + s[1..];
      if s[0] != '\n' {
        EscapedCharHasNoNewline(s[0], HtmlEscape(s[1..]));
      } else {
        assert HtmlEscape(s)[1..] == HtmlEscape(s[1..]);
      }
    }
  }

  lemma EscapedCharHasNoNewline(c: char, rest: string)
    requires c != '\n'
    ensures '\n' !in EscapeChar(c)
    ensures '\n' in rest ==> AfterNewline(EscapeChar(c) + rest) == AfterNewline(rest)
  {
    if '\n' in rest {
      SkipToNewline(EscapeChar(c), rest);
    }
  }

  lemma {:induction false} SkipToNewline(s: string, rest: string)
    requires '\n' !in s && '\n' in rest
    ensures AfterNewline(s + rest) == AfterNewline(rest)
  {
    if s == [] {
      assert s + rest == rest;
    } else {
      assert (s + rest)[1..] == s[1..] + rest;
      SkipToNewline(s[1..], rest);
    }
  }

  lemma ReadPlain(chunk: string, rest: string)
    ensures Read(Breaks(PlainHtml(chunk)) + rest) == chunk + Read(rest)
  {
    hide Erase, Unescape, Breaks, Linkify, HtmlEscape;
    EscapedHasNoAngles(chunk);
    EraseLinkified(HtmlEscape(chunk), rest);
    UnescapeEscaped(chunk, Erase(rest));
  }

  lemma ReadEscapedThenPlain(escaped: string, plain: string, rest: string)
    requires '&' !in plain
    ensures Unescape((HtmlEscape(escaped) + plain) + rest) == (escaped + plain) + Unescape(rest)
  {
    hide Unescape, HtmlEscape;
    ConcatAssociative(HtmlEscape(escaped), plain, rest);
    UnescapeEscaped(escaped, plain + rest);
    UnescapePlain(plain, rest);
    ConcatAssociative(escaped, plain, Unescape(rest));
  }

  lemma ReadSpill(url: string, rest: string)
    ensures Unescape(Leak(HtmlEscape(url)) + rest)
         == (if '\n' in url then AfterNewline(url) + TailAttributes() + ">" else "") + Unescape(rest)
  {
    hide Unescape, HtmlEscape, AfterNewline, TailAttributes;
    EscapeKeepsNewlines(url);
    if '\n' in url {
      var after := AfterNewline(url);
      QuietTail();
      ReadEscapedThenPlain(after, TailAttributes() + ">", rest);
      ConcatAssociative(HtmlEscape(after), TailAttributes(), ">");
      ConcatAssociative(after, TailAttributes(), ">");
    } else {
      assert Leak(HtmlEscape(url)) + rest == rest;
    }
  }

  lemma QuietTail()
    ensures '&' !in TailAttributes() + ">"
  {
    TagPieces();
    hide TailAttributes;
  }

  lemma ReadFacet(facet: Facet, segment: string, rest: string)
    ensures Read(Breaks(FacetHtml(facet.features, HtmlEscape(segment))) + rest)
         == Spill(facet) + (segment + Read(rest))
  {
    hide Erase, Unescape, Breaks, HtmlEscape, Anchor, Leak;
    EscapedHasNoAngles(segment);
    match Target(facet.features) {
      case None =>
        EraseBrokenText(HtmlEscape(segment), rest);
        UnescapeEscaped(segment, Erase(rest));
      case Some(url) =>
        EscapedHasNoAngles(url);
        EraseAnchor(HtmlEscape(url), HtmlEscape(segment), rest);
        ReadSpill(url, HtmlEscape(segment) + Erase(rest));
        UnescapeEscaped(segment, Erase(rest));
    }
  }

  lemma ReadPiece(text: string, cursor: nat, facet: Facet, rest: string)
    requires Accepts(text, cursor, facet) && CharIndex(text, cursor).Some?
    ensures var i, j, k := CharIndex(text, cursor).value, CharIndex(text, facet.byteStart).value,
                           CharIndex(text, facet.byteEnd).value;
            && i <= j <= k
            && Read(Breaks(Piece(text, cursor, facet)) + rest)
               == text[i..j] + (Spill(facet) + (text[j..k] + Read(rest)))
  {
    OffsetsOrdered(text, cursor, facet.byteStart);
    OffsetsOrdered(text, facet.byteStart, cursor);
    AlignedGet(text, cursor, facet.byteStart);
    AlignedGet(text, facet.byteStart, facet.byteEnd);
    var i, j, k := CharIndex(text, cursor).value, CharIndex(text, facet.byteStart).value,
                   CharIndex(text, facet.byteEnd).value;
    OffsetsOrdered(text, facet.byteStart, facet.byteEnd);
    var link := FacetHtml(facet.features, HtmlEscape(text[j..k]));
    var plain := if cursor < facet.byteStart then PlainHtml(text[i..j]) else "";
    assert Piece(text, cursor, facet) == plain + link;
    hide Erase, Unescape, Breaks, FacetHtml, PlainHtml, Spill, CharIndex, Piece, HtmlEscape, Read;
    BreaksAppend(plain, link);
    ReadFacet(facet, text[j..k], rest);
    ConcatAssociative(Breaks(plain), Breaks(link), rest);
    if cursor < facet.byteStart {
      ReadPlain(text[i..j], Breaks(link) + rest);
    } else {
      BreaksNone("");
      assert text[i..j] == "";
      assert Breaks("") + (Breaks(link) + rest) == Breaks(link) + rest;
    }
  }

  lemma {:induction false} ReadWalk(text: string, facets: seq<Facet>, cursor: nat, rest: string)
    requires CharIndex(text, cursor).Some? && cursor <= ByteLength(text)
    ensures Read(Breaks(Walk(text, facets, cursor)) + rest) == Exposed(text, facets, cursor) + Read(rest)
    decreases facets
  {
    hide Erase, Unescape, Breaks, PlainHtml, Spill, Piece, Read;
    if facets == [] {
      EndOffset(text);
      AlignedGet(text, cursor, ByteLength(text));
      OffsetsOrdered(text, ByteLength(text), cursor);
      var i := CharIndex(text, cursor).value;
      if cursor < ByteLength(text) {
        assert text[i..|text|] == text[i..];
        ReadPlain(text[i..], rest);
      } else {
        BreaksNone("");
        assert Breaks("") + rest == rest;
      }
    } else if Accepts(text, cursor, facets[0]) {
      var piece, more := Piece(text, cursor, facets[0]), Walk(text, facets[1..], facets[0].byteEnd);
      ReadWalk(text, facets[1..], facets[0].byteEnd, rest);
      BreaksAppend(piece, more);
      ConcatAssociative(Breaks(piece), Breaks(more), rest);
      ReadPiece(text, cursor, facets[0], Breaks(more) + rest);
      ExposedStep(text, facets, cursor, Read(rest));
    } else {
      ReadWalk(text, facets[1..], cursor, rest);
    }
  }

  lemma ExposedStep(text: string, facets: seq<Facet>, cursor: nat, rest: string)
    requires CharIndex(text, cursor).Some? && facets != [] && Accepts(text, cursor, facets[0])
    ensures var i, j, k := CharIndex(text, cursor).value, CharIndex(text, facets[0].byteStart).value,
                           CharIndex(text, facets[0].byteEnd).value;
            && i <= j <= k
            && Exposed(text, facets, cursor) + rest
               == text[i..j] + (Spill(facets[0]) + (text[j..k]
                  + (Exposed(text, facets[1..], facets[0].byteEnd) + rest)))
  {
    OffsetsOrdered(text, cursor, facets[0].byteStart);
    OffsetsOrdered(text, facets[0].byteStart, facets[0].byteEnd);
    hide Spill;
  }

  // ---- nothing is lost ------------------------------------------------------------------------------------

  /** No link the renderer emits has a newline in its target. */
  ghost predicate CleanTargets(facets: seq<Facet>) {
    forall i :: 0 <= i < |facets| && Target(facets[i].features).Some?
      ==> '\n' !in Target(facets[i].features).value
  }

  lemma {:induction false} ExposedIsTextIff(text: string, facets: seq<Facet>, cursor: nat)
    requires CharIndex(text, cursor).Some?
    ensures |Exposed(text, facets, cursor)| >= |text| - CharIndex(text, cursor).value
    ensures Exposed(text, facets, cursor) == text[CharIndex(text, cursor).value..]
       <==> CleanTargets(Accepted(text, facets, cursor))
    decreases facets
  {
    if facets != [] && Accepts(text, cursor, facets[0]) {
      var facet, rest := facets[0], facets[1..];
      OffsetsOrdered(text, cursor, facet.byteStart);
      OffsetsOrdered(text, facet.byteStart, facet.byteEnd);
      var i, j, k := CharIndex(text, cursor).value, CharIndex(text, facet.byteStart).value,
                     CharIndex(text, facet.byteEnd).value;
      ExposedIsTextIff(text, rest, facet.byteEnd);
      var more, spill := Exposed(text, rest, facet.byteEnd), Spill(facet);
      assert Exposed(text, facets, cursor) == text[i..j] + (spill + (text[j..k] + more));
      SpillsIffUnclean(facet);
      CleanSplit(facet, Accepted(text, rest, facet.byteEnd));
      hide Spill, Exposed, Accepted, CharIndex, CleanTargets;
      InsertedText(text, i, j, k, spill, more);
    } else if facets != [] {
      ExposedIsTextIff(text, facets[1..], cursor);
    }
  }

  lemma SpillsIffUnclean(facet: Facet)
    ensures Spill(facet) == "" <==> CleanTargets([facet])
  {
    hide Target, TailAttributes;
    assert [facet][0] == facet;
  }

  lemma CleanSplit(facet: Facet, rest: seq<Facet>)
    ensures CleanTargets([facet] + rest) <==> CleanTargets([facet]) && CleanTargets(rest)
  {
    var all := [facet] + rest;
    assert all[0] == facet;
    assert forall i :: 0 <= i < |rest| ==> rest[i] == all[i + 1];
    assert forall i :: 1 <= i < |all| ==> all[i] == rest[i - 1];
  }

  lemma InsertedText(text: string, i: nat, j: nat, k: nat, spill: string, more: string)
    requires i <= j <= k <= |text| && |more| >= |text| - k
    ensures var whole := text[i..j] + (spill + (text[j..k] + more));
            && |whole| >= |text| - i
            && (whole == text[i..] <==> spill == "" && more == text[k..])
  {
    var whole := text[i..j] + (spill + (text[j..k] + more));
    assert text[i..] == text[i..j] + (text[j..k] + text[k..]);
    if whole == text[i..] {
      assert whole[k - i..] == more;
    }
    if spill == "" && more == text[k..] {
      assert spill + (text[j..k] + more) == text[j..k] + text[k..];
    }
  }

  lemma ReadParagraph(body: string)
    ensures Read("<p>" + body + "</p>") == Read(body + "</p>")
    ensures Read("</p>") == ""
  {
    var rest := body + "</p>";
    EraseWholeTag("p", rest);
    assert "<" + "p" + ">" + rest == "<p>" + body + "</p>";
    assert "" + Erase(rest) == Erase(rest);
    EraseWholeTag("/p", "");
    assert "<" + "/p" + ">" + "" == "</p>";
    assert Erase("</p>") == "";
  }

  /** Erasing the markup gives exactly the input text if and only if no facet that is rendered as
      a link has a newline in its target: for every text and every list of facets, overlapping,
      out of range, unsorted or cutting through characters. */
  lemma RenderingLosesNothingIff(text: string, facets: seq<Facet>)
    ensures Read(TextWithFacetsToHtml(text, facets)) == text
       <==> CleanTargets(Accepted(text, SortBy(StartLeq, facets), 0))
  {
    hide Erase, Unescape, Breaks, PlainHtml, Walk, Exposed, Accepted;
    var sorted := SortBy(StartLeq, facets);
    if text == "" {
      NothingAccepted(sorted);
      EmptyReads();
    } else if facets == [] {
      ReadParagraph(Breaks(PlainHtml(text)));
      ReadPlain(text, "</p>");
      NothingAccepted([]);
      NoFacets(text);
    } else {
      var body := Breaks(Walk(text, sorted, 0));
      ReadParagraph(body);
      ReadWalk(text, sorted, 0, "</p>");
      ExposedIsTextIff(text, sorted, 0);
    }
  }

  lemma EmptyReads()
    ensures Read("") == ""
  {
  }

  lemma NoFacets(text: string)
    ensures Accepted(text, [], 0) == []
    ensures TextToHtml(text) == if text == "" then "" else "<p>" + Breaks(PlainHtml(text)) + "</p>"
  {
  }

  lemma {:induction false} NothingAccepted(facets: seq<Facet>)
    ensures Accepted("", facets, 0) == []
  {
    if facets != [] {
      NothingAccepted(facets[1..]);
    }
  }

  /** A facet whose link uri is a single newline: the tag's attributes become visible text. */
  lemma NewlineTargetShowsItsTag()
    ensures Read(TextWithFacetsToHtml("a", [Facet(0, 1, [Link("\n")])])) != "a"
  {
    var facet := Facet(0, 1, [Link("\n")]);
    assert Accepts("a", 0, facet) && Target(facet.features) == Some("\n");
    assert SortBy(StartLeq, [facet]) == [facet];
    assert Accepted("a", [facet], 0)[0] == facet;
    hide Read, TextWithFacetsToHtml, Target, Accepted, SortBy;
    RenderingLosesNothingIff("a", [facet]);
    assert "\n"[0] == '\n';
  }

  /** Newline-free link uris and account ids are enough: hashtags are percent-encoded. */
  lemma {:induction false} CleanFeatures(features: seq<Feature>)
    requires forall i :: 0 <= i < |features| ==>
               && (features[i].Link? ==> '\n' !in features[i].uri)
               && (features[i].Mention? ==> '\n' !in features[i].did)
    ensures Target(features).Some? ==> '\n' !in Target(features).value
  {
    if features != [] {
      CleanFeatures(features[1..]);
      PrefixesClean();
      hide ProfilePrefix, HashtagPrefix, UrlEncode;
    }
  }

  lemma PrefixesClean()
    ensures '\n' !in ProfilePrefix() && '\n' !in HashtagPrefix()
  {
    assert '\n' !in "https://" && '\n' !in "bsky.app" && '\n' !in "/profile/" && '\n' !in "/hashtag/";
  }

  lemma RenderingLosesNothing(text: string, facets: seq<Facet>)
    requires forall f, i :: f in facets && 0 <= i < |f.features| ==>
               && (f.features[i].Link? ==> '\n' !in f.features[i].uri)
               && (f.features[i].Mention? ==> '\n' !in f.features[i].did)
    ensures Read(TextWithFacetsToHtml(text, facets)) == text
  {
    hide Read, TextWithFacetsToHtml, Target;
    var sorted := SortBy(StartLeq, facets);
    var accepted := Accepted(text, sorted, 0);
    RenderingLosesNothingIff(text, facets);
    SortByMembers(StartLeq, facets);
    AcceptedAmong(text, sorted, 0);
    forall i | 0 <= i < |accepted| && Target(accepted[i].features).Some?
      ensures '\n' !in Target(accepted[i].features).value
    {
      assert accepted[i] in facets;
      CleanFeatures(accepted[i].features);
    }
  }

  /** Text without facets is never lost: the urls found in it are newline-free. */
  lemma PlainTextLosesNothing(text: string)
    ensures Read(TextToHtml(text)) == text
  {
    hide Read, TextToHtml;
    RenderingLosesNothing(text, []);
    assert TextToHtml("") == "" by { NoFacets(""); }
  }

  lemma {:induction false} AcceptedAmong(text: string, facets: seq<Facet>, cursor: nat)
    ensures forall f :: f in Accepted(text, facets, cursor) ==> f in facets
    decreases facets
  {
    if facets != [] {
      AcceptedAmong(text, facets[1..], if Accepts(text, cursor, facets[0]) then facets[0].byteEnd else cursor);
    }
  }

  // ---- sorting is what lets disjoint facets all through ----------------------------------------------------

  ghost predicate Separate(a: Facet, b: Facet) { a.byteEnd <= b.byteStart || b.byteEnd <= a.byteStart }

  /** Well-formed facets that do not overlap are all rendered, in whatever order they are listed. */
  lemma DisjointFacetsAllRender(text: string, facets: seq<Facet>)
    requires forall i :: 0 <= i < |facets| ==> Accepts(text, 0, facets[i])
    requires forall i, j :: 0 <= i < j < |facets| ==> Separate(facets[i], facets[j])
    ensures Accepted(text, SortBy(StartLeq, facets), 0) == SortBy(StartLeq, facets)
    ensures multiset(SortBy(StartLeq, facets)) == multiset(facets)
  {
    hide Get, CharIndex, ByteLength;
    var sorted := SortBy(StartLeq, facets);
    SortBySorts(StartLeq, facets);
    SortByMembers(StartLeq, facets);
    forall i, j | 0 <= i < j < |facets| ensures facets[i] != facets[j] {
      assert Accepts(text, 0, facets[i]);
    }
    SortByDistinct(StartLeq, facets);
    forall i | 0 <= i < |sorted| ensures Accepts(text, 0, sorted[i]) {
      assert sorted[i] in facets;
    }
    forall i, j | 0 <= i < j < |sorted| ensures sorted[i].byteEnd <= sorted[j].byteStart {
      assert sorted[i] in facets && sorted[j] in facets;
      var k :| 0 <= k < |facets| && facets[k] == sorted[i];
      var l :| 0 <= l < |facets| && facets[l] == sorted[j];
      assert k < l ==> Separate(facets[k], facets[l]);
      assert l < k ==> Separate(facets[l], facets[k]);
      assert StartLeq(sorted[i], sorted[j]);
      assert Accepts(text, 0, sorted[i]) && Accepts(text, 0, sorted[j]);
    }
    AllAccepted(text, sorted, 0);
  }

  lemma {:induction false} AllAccepted(text: string, facets: seq<Facet>, cursor: nat)
    requires forall i :: 0 <= i < |facets| ==> Accepts(text, 0, facets[i]) && cursor <= facets[i].byteStart
    requires forall i, j :: 0 <= i < j < |facets| ==> facets[i].byteEnd <= facets[j].byteStart
    ensures Accepted(text, facets, cursor) == facets
    decreases facets
  {
    if facets != [] {
      assert Accepts(text, cursor, facets[0]);
      AllAccepted(text, facets[1..], facets[0].byteEnd);
      assert facets == [facets[0]] + facets[1..];
    }
  }

  // ---- the loop --------------------------------------------------------------------------------------------

  method RenderText(text: string, facets: seq<Facet>) returns (html: string)
    ensures html == TextWithFacetsToHtml(text, facets)
  {
    if text == "" {
      return "";
    }
    if facets == [] {
      return TextToHtml(text);
    }
    var sorted := SortBy(StartLeq, facets);
    var out, cursor: nat := "", 0;
    hide Get, ByteLength, PlainHtml, FacetHtml, HtmlEscape, SortBy, Breaks;
    for n := 0 to |sorted|
      invariant out + Walk(text, sorted[n..], cursor) == Walk(text, sorted, 0)
    {
      assert sorted[n..][1..] == sorted[n + 1..];
      var start, end := sorted[n].byteStart, sorted[n].byteEnd;
      if start < cursor || start >= end || end > ByteLength(text) {
        continue;
      }
      match Get(text, start, end) {
        case None => continue;
        case Some(segment) =>
          var chunk := if cursor < start then PlainHtml(OrEmpty(Get(text, cursor, start))) else "";
          var link := FacetHtml(sorted[n].features, HtmlEscape(segment));
          ConcatAssociative(out, chunk + link, Walk(text, sorted[n + 1..], end));
          out := out + (chunk + link);
          cursor := end;
      }
    }
    assert sorted[|sorted|..] == [];
    if cursor < ByteLength(text) {
      out := out + PlainHtml(OrEmpty(Get(text, cursor, ByteLength(text))));
    }
    assert out == Walk(text, sorted, 0);
    html := "<p>" + Breaks(out) + "</p>";
  }
}
