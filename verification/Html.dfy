/** Escaping, linkification and line breaks (src/bluesky/convert.rs), and the erasure that a
    reader of the markup performs. */
module Html {
  import opened Basics
  import opened Text

  // ---- writing markup -------------------------------------------------------------------------

  function EscapeChar(c: char): string {
    match c
    case '&' => "&amp;"
    case '<' => "&lt;"
    case '>' => "&gt;"
    case '"' => "&quot;"
    case '\'' => "&#39;"
    case _ => [c]
  }

  function HtmlEscape(s: string): string {
    if s == [] then [] else EscapeChar(s[0]) + HtmlEscape(s[1..])
  }

  function OpenTag(): string { "a href=\"" }

  function TailAttributes(): string {
    "\" rel=\"nofollow" + " noopener" + " noreferrer" + "\" target=\"" + "_blank\""
  }

  function Anchor(href: string, body: string): string {
    "<" + (OpenTag() + (href + (TailAttributes() + (">" + (body + "</a>")))))
  }

  /** Index of the first occurrence of `pattern`. */
  function Find(text: string, pattern: string): Option<nat> {
    if pattern <= text then Some(0)
    else if text == [] then None
    else match Find(text[1..], pattern) case None => None case Some(i) => Some(i + 1)
  }

  function FindUrlStart(text: string): Option<nat> {
    match (Find(text, "http://"), Find(text, "https://"))
    case (Some(i), Some(j)) => Some(if i <= j then i else j)
    case (Some(i), None) => Some(i)
    case (None, other) => other
  }

  predicate EndsUrl(c: char) { IsWhitespace(c) || c == '<' || c == '>' }

  function UrlEnd(text: string): (end: nat)
    ensures end <= |text|
    ensures forall i :: 0 <= i < end ==> !EndsUrl(text[i])
    ensures end < |text| ==> EndsUrl(text[end])
  {
    if text == [] || EndsUrl(text[0]) then 0 else 1 + UrlEnd(text[1..])
  }

  lemma {:induction false} FindResult(text: string, pattern: string)
    ensures Find(text, pattern).Some? ==>
              Find(text, pattern).value <= |text| && pattern <= text[Find(text, pattern).value..]
  {
    if !(pattern <= text) && text != [] {
      FindResult(text[1..], pattern);
      match Find(text[1..], pattern) {
        case Some(i) => assert text[1..][i..] == text[i + 1..];
        case None =>
      }
    }
  }

  /** A url found in the text is at least its scheme's first character long. */
  lemma UrlProgress(text: string, start: nat)
    requires FindUrlStart(text) == Some(start)
    ensures start < |text| && UrlEnd(text[start..]) > 0
  {
    FindResult(text, "http://");
    FindResult(text, "https://");
    assert text[start..][0] == 'h';
  }

  function Linkify(text: string): string
    decreases |text|
  {
    match FindUrlStart(text)
    case None => text
    case Some(start) =>
      UrlProgress(text, start);
      var after := text[start..];
      var url := after[..UrlEnd(after)];
      text[..start] + (Anchor(url, url) + Linkify(after[UrlEnd(after)..]))
  }

  /** Every newline becomes a line-break tag. */
  function Breaks(s: string): string {
    if s == [] then [] else (if s[0] == '\n' then "<br>" else [s[0]]) + Breaks(s[1..])
  }

  // ---- reading markup ---------------------------------------------------------------------------

  /** Drops tags, turning `br` tags into newlines. */
  function Erase(s: string): string
    decreases |s|
  {
    if s == [] then []
    else if s[0] == '<' then EraseTag(s[1..], [])
    else [s[0]] + Erase(s[1..])
  }

  function EraseTag(s: string, name: string): string
    decreases |s|
  {
    if s == [] then []
    else if s[0] == '>' then (if name == "br" then "\n" else "") + Erase(s[1..])
    else EraseTag(s[1..], name + [s[0]])
  }

  function Unescape(s: string): string {
    if s == [] then []
    else if "&amp;" <= s then "&" + Unescape(s[5..])
    else if "&lt;" <= s then "<" + Unescape(s[4..])
    else if "&gt;" <= s then ">" + Unescape(s[4..])
    else if "&quot;" <= s then "\"" + Unescape(s[6..])
    else if "&#39;" <= s then "'" + Unescape(s[5..])
    else [s[0]] + Unescape(s[1..])
  }

  // ---- escaping ----------------------------------------------------------------------------------

  predicate NoAngles(s: string) { '<' !in s && '>' !in s }

  lemma {:induction false} EscapedHasNoAngles(s: string)
    ensures NoAngles(HtmlEscape(s))
  {
    if s != [] {
      EscapedHasNoAngles(s[1..]);
    }
  }

  lemma {:induction false} EscapeAppend(s: string, t: string)
    ensures HtmlEscape(s + t) == HtmlEscape(s) + HtmlEscape(t)
  {
    if s == [] {
      assert s + t == t;
    } else {
      assert (s + t)[1..] == s[1..] + t;
      EscapeAppend(s[1..], t);
      ConcatAssociative(EscapeChar(s[0]), HtmlEscape(s[1..]), HtmlEscape(t));
    }
  }

  lemma UnescapeChar(c: char, rest: string)
    ensures Unescape(EscapeChar(c) + rest) == [c] + Unescape(rest)
  {
    var s := EscapeChar(c) + rest;
    assert s[|EscapeChar(c)|..] == rest;
    assert s[0] == EscapeChar(c)[0];
    if c == '&' || c == '<' || c == '>' || c == '"' || c == '\'' {
      assert EscapeChar(c) <= s;
      assert s[1] == EscapeChar(c)[1] && s[2] == EscapeChar(c)[2];
    }
  }

  lemma {:induction false} UnescapeEscaped(s: string, rest: string)
    ensures Unescape(HtmlEscape(s) + rest) == s + Unescape(rest)
  {
    if s == [] {
      assert HtmlEscape(s) + rest == rest;
    } else {
      ConcatAssociative(EscapeChar(s[0]), HtmlEscape(s[1..]), rest);
      UnescapeChar(s[0], HtmlEscape(s[1..]) + rest);
      UnescapeEscaped(s[1..], rest);
      ConcatAssociative([s[0]], s[1..], Unescape(rest));
      assert s == [s[0]] + s[1..];
    }
  }

  lemma UnescapeOther(c: char, rest: string)
    requires c != '&'
    ensures Unescape([c] + rest) == [c] + Unescape(rest)
  {
    assert ([c] + rest)[1..] == rest && ([c] + rest)[0] == c;
  }

  lemma {:induction false} UnescapePlain(s: string, rest: string)
    requires '&' !in s
    ensures Unescape(s + rest) == s + Unescape(rest)
  {
    hide Unescape;
    if s == [] {
      assert s + rest == rest;
    } else {
      var tail := s[1..] + rest;
      assert s + rest == [s[0]] + tail;
      UnescapeOther(s[0], tail);
      UnescapePlain(s[1..], rest);
      ConcatAssociative([s[0]], s[1..], Unescape(rest));
      assert s == [s[0]] + s[1..];
    }
  }

  // ---- erasing --------------------------------------------------------------------------------------

  lemma {:induction false} BreaksAppend(s: string, t: string)
    ensures Breaks(s + t) == Breaks(s) + Breaks(t)
  {
    if s == [] {
      assert s + t == t;
    } else {
      assert (s + t)[1..] == s[1..] + t;
      BreaksAppend(s[1..], t);
      ConcatAssociative(if s[0] == '\n' then "<br>" else [s[0]], Breaks(s[1..]), Breaks(t));
    }
  }

  lemma {:induction false} BreaksNone(s: string)
    requires '\n' !in s
    ensures Breaks(s) == s
  {
    if s != [] {
      BreaksNone(s[1..]);
      assert s == [s[0]] + s[1..];
    }
  }

  lemma {:induction false} EraseInsideTag(s: string, rest: string, name: string)
    requires '>' !in s
    ensures EraseTag(s + rest, name) == EraseTag(rest, name + s)
    decreases |s|
  {
    if s == [] {
      assert s + rest == rest && name + s == name;
    } else {
      assert (s + rest)[1..] == s[1..] + rest && (s + rest)[0] == s[0];
      EraseInsideTag(s[1..], rest, name + [s[0]]);
      assert name + [s[0]] + s[1..] == name + s;
    }
  }

  /** A whole tag vanishes, or turns into the newline it stands for. */
  lemma EraseWholeTag(s: string, rest: string)
    requires '>' !in s
    ensures Erase("<" + s + ">" + rest) == (if s == "br" then "\n" else "") + Erase(rest)
  {
    var whole := "<" + s + ">" + rest;
    assert whole[1..] == s + (">" + rest);
    EraseInsideTag(s, ">" + rest, []);
    assert [] + s == s;
    assert (">" + rest)[1..] == rest;
  }

  lemma EraseChar(c: char, rest: string)
    requires c != '<'
    ensures Erase([c] + rest) == [c] + Erase(rest)
  {
    assert ([c] + rest)[1..] == rest;
  }

  lemma BrokenChar(s: string, rest: string)
    requires s != []
    ensures Breaks(s) + rest == (if s[0] == '\n' then "<br>" else [s[0]]) + (Breaks(s[1..]) + rest)
  {
    ConcatAssociative(if s[0] == '\n' then "<br>" else [s[0]], Breaks(s[1..]), rest);
  }

  lemma EraseLineBreak(rest: string)
    ensures Erase("<br>" + rest) == "\n" + Erase(rest)
  {
    assert "<" + "br" + ">" == "<br>";
    EraseWholeTag("br", rest);
  }

  /** Text without opening angle brackets comes back, newlines included. */
  lemma {:induction false} EraseBrokenText(s: string, rest: string)
    requires '<' !in s
    ensures Erase(Breaks(s) + rest) == s + Erase(rest)
  {
    if s == [] {
      assert Breaks(s) + rest == rest;
    } else {
      hide Erase, Breaks;
      var tail := Breaks(s[1..]) + rest;
      BrokenChar(s, rest);
      EraseBrokenText(s[1..], rest);
      if s[0] == '\n' {
        EraseLineBreak(tail);
      } else {
        EraseChar(s[0], tail);
      }
      ConcatAssociative([s[0]], s[1..], Erase(rest));
      assert s == [s[0]] + s[1..];
    }
  }

  /** What follows the first newline. */
  function AfterNewline(s: string): string
    requires '\n' in s
  {
    if s[0] == '\n' then s[1..] else AfterNewline(s[1..])
  }

  /** What an anchor leaks into the visible text: a newline in the target ends the opening tag
      early, so the rest of the tag is taken for text. */
  function Leak(href: string): string {
    if '\n' in href then AfterNewline(href) + TailAttributes() + ">" else ""
  }

  lemma {:induction false} SplitAtNewline(s: string) returns (before: string)
    requires '\n' in s
    ensures '\n' !in before && s == before + "\n" + AfterNewline(s)
  {
    if s[0] == '\n' {
      before := "";
      assert s == [s[0]] + s[1..];
    } else {
      var rest := SplitAtNewline(s[1..]);
      before := [s[0]] + rest;
      assert s == [s[0]] + s[1..];
    }
  }

  /** Free of every character that erasing and unescaping react to. */
  predicate Quiet(s: string) { '<' !in s && '>' !in s && '\n' !in s && '&' !in s }

  lemma QuietAppend(s: string, t: string)
    requires Quiet(s) && Quiet(t)
    ensures Quiet(s + t)
  {
  }

  lemma QuietAttribute()
    ensures Quiet("\" rel=\"nofollow")
  {
  }

  lemma QuietWords()
    ensures Quiet(" noopener") && Quiet(" noreferrer")
  {
  }

  lemma QuietTarget()
    ensures Quiet("\" target=\"") && Quiet("_blank\"")
  {
  }

  lemma QuietOpenTag()
    ensures Quiet(OpenTag()) && |OpenTag()| > 2
  {
  }

  lemma TagPieces()
    ensures Quiet(OpenTag()) && |OpenTag()| > 2
    ensures Quiet(TailAttributes())
  {
    hide Quiet, OpenTag;
    QuietOpenTag();
    QuietAttribute();
    QuietWords();
    QuietTarget();
    QuietAppend("\" rel=\"nofollow", " noopener");
    QuietAppend("\" rel=\"nofollow" + " noopener", " noreferrer");
    QuietAppend("\" rel=\"nofollow" + " noopener" + " noreferrer", "\" target=\"");
    QuietAppend("\" rel=\"nofollow" + " noopener" + " noreferrer" + "\" target=\"", "_blank\"");
  }

  lemma AnchorBreaks(href: string, body: string)
    ensures Breaks(Anchor(href, body))
         == "<" + (OpenTag() + (Breaks(href) + (TailAttributes() + (">" + (Breaks(body) + "</a>")))))
  {
    TagPieces();
    BreaksNone("<");
    BreaksNone(">");
    BreaksNone("</a>");
    BreaksNone(OpenTag());
    BreaksNone(TailAttributes());
    hide Breaks, OpenTag, TailAttributes, Quiet;
    BreaksAppend("<", OpenTag() + (href + (TailAttributes() + (">" + (body + "</a>")))));
    BreaksAppend(OpenTag(), href + (TailAttributes() + (">" + (body + "</a>"))));
    BreaksAppend(href, TailAttributes() + (">" + (body + "</a>")));
    BreaksAppend(TailAttributes(), ">" + (body + "</a>"));
    BreaksAppend(">", body + "</a>");
    BreaksAppend(body, "</a>");
  }

  /** Erasing an anchor leaves its body, preceded by what its target leaks. */
  lemma EraseAnchor(href: string, body: string, rest: string)
    requires NoAngles(href) && NoAngles(body)
    ensures Erase(Breaks(Anchor(href, body)) + rest) == Leak(href) + (body + Erase(rest))
  {
    var inner := Breaks(body) + ("</a>" + rest);
    AnchorBreaks(href, body);
    EraseWholeTag("/a", rest);
    EraseBrokenText(body, "</a>" + rest);
    hide Erase, Breaks, Anchor, OpenTag, TailAttributes, AfterNewline;
    assert "</a>" + rest == "<" + "/a" + ">" + rest;
    assert Erase(inner) == body + Erase(rest);
    hide NoAngles, Leak;
    AnchorThen(OpenTag(), Breaks(href), TailAttributes(), Breaks(body), rest);
    if '\n' in href {
      EraseBrokenHref(href, inner);
    } else {
      BreaksNone(href);
      EraseWholeHref(href, inner);
    }
  }

  lemma AnchorThen(open: string, href: string, attributes: string, body: string, rest: string)
    ensures "<" + (open + (href + (attributes + (">" + (body + "</a>"))))) + rest
         == "<" + (open + (href + (attributes + (">" + (body + ("</a>" + rest))))))
  {
  }

  lemma EraseWholeHref(href: string, inner: string)
    requires NoAngles(href)
    ensures Erase("<" + (OpenTag() + (href + (TailAttributes() + (">" + inner))))) == Erase(inner)
  {
    TagPieces();
    hide Erase, OpenTag, TailAttributes;
    var name := OpenTag() + href + TailAttributes();
    assert |name| > 2;
    EraseWholeTag(name, inner);
    assert "<" + (OpenTag() + (href + (TailAttributes() + (">" + inner)))) == "<" + name + ">" + inner;
  }

  lemma BrokenHrefText(href: string, before: string)
    requires '\n' in href && '\n' !in before && href == before + "\n" + AfterNewline(href)
    ensures Breaks(href) == before + ("<br>" + Breaks(AfterNewline(href)))
  {
    var after := AfterNewline(href);
    assert href == before + ("\n" + after);
    BreaksAppend(before, "\n" + after);
    BreaksNone(before);
    assert ("\n" + after)[1..] == after;
  }

  /** Text up to and including the bracket that was meant to end the tag. */
  lemma EraseLeaked(after: string, attributes: string, inner: string)
    requires NoAngles(after) && Quiet(attributes)
    ensures Erase(Breaks(after) + (attributes + (">" + inner))) == after + (attributes + (">" + Erase(inner)))
  {
    EraseBrokenText(after, attributes + (">" + inner));
    BreaksNone(attributes);
    EraseBrokenText(attributes, ">" + inner);
    assert (">" + inner)[1..] == inner;
  }

  lemma EraseBrokenHref(href: string, inner: string)
    requires NoAngles(href) && '\n' in href
    ensures Erase("<" + (OpenTag() + (Breaks(href) + (TailAttributes() + (">" + inner)))))
         == Leak(href) + Erase(inner)
  {
    TagPieces();
    var before := SplitAtNewline(href);
    var after := AfterNewline(href);
    BrokenHrefText(href, before);
    assert forall c :: c in before || c in after ==> c in href;
    hide Erase, Breaks, OpenTag, TailAttributes, AfterNewline;
    var name := OpenTag() + before + "<br";
    var tail := TailAttributes() + (">" + inner);
    assert |name| > 2;
    EraseWholeTag(name, Breaks(after) + tail);
    hide Quiet, NoAngles;
    BrokenTag(OpenTag(), before, Breaks(after), tail);
    EraseLeaked(after, TailAttributes(), inner);
    LeakedText(after, TailAttributes(), Erase(inner));
  }

  /** The line break inside a broken target closes the tag. */
  lemma BrokenTag(open: string, before: string, after: string, tail: string)
    ensures "<" + (open + ((before + ("<br>" + after)) + tail)) == "<" + (open + before + "<br") + ">" + (after + tail)
  {
    assert "<br>" == "<br" + ">";
  }

  lemma LeakedText(after: string, attributes: string, rest: string)
    ensures after + (attributes + (">" + rest)) == (after + attributes + ">") + rest
  {
  }

  /** Linkification only adds markup: erasing it gives the escaped text back. */
  lemma {:induction false} EraseLinkified(text: string, rest: string)
    requires NoAngles(text)
    ensures Erase(Breaks(Linkify(text)) + rest) == text + Erase(rest)
    decreases |text|
  {
    match FindUrlStart(text) {
      case None => EraseBrokenText(text, rest);
      case Some(start) =>
        UrlProgress(text, start);
        var after := text[start..];
        EraseFirstLink(text, start, rest);
        EraseLinkified(after[UrlEnd(after)..], rest);
        assert forall c :: c in after[UrlEnd(after)..] ==> c in text;
    }
  }

  lemma EraseFirstLink(text: string, start: nat, rest: string)
    requires NoAngles(text) && FindUrlStart(text) == Some(start)
    requires start < |text| && UrlEnd(text[start..]) > 0
    ensures var after := text[start..];
            var more := after[UrlEnd(after)..];
            (Erase(Breaks(Linkify(more)) + rest) == more + Erase(rest) ==>
             Erase(Breaks(Linkify(text)) + rest) == text + Erase(rest))
  {
    var before, after := text[..start], text[start..];
    var end := UrlEnd(after);
    var url, more := after[..end], after[end..];
    assert '\n' !in url by { assert IsWhitespace('\n'); }
    assert Linkify(text) == before + (Anchor(url, url) + Linkify(more));
    assert text == before + (url + more);
    hide Linkify, UrlEnd, FindUrlStart, IsWhitespace;
    assert NoAngles(before) && NoAngles(url) by {
      assert forall c :: c in before || c in url ==> c in text;
    }
    EraseTextAndLink(before, url, Linkify(more), rest);
    hide *;
    LinkText(before, url, more, Erase(rest));
  }

  lemma LinkText(before: string, url: string, more: string, rest: string)
    ensures before + (url + (more + rest)) == (before + (url + more)) + rest
  {
  }

  lemma EraseTextAndLink(before: string, url: string, linked: string, rest: string)
    requires NoAngles(before) && NoAngles(url) && '\n' !in url
    ensures Erase(Breaks(before + (Anchor(url, url) + linked)) + rest)
         == before + (url + Erase(Breaks(linked) + rest))
  {
    hide Erase, Breaks, Anchor;
    BreaksAppend(before, Anchor(url, url) + linked);
    BreaksAppend(Anchor(url, url), linked);
    var tail := Breaks(linked) + rest;
    EraseAnchor(url, url, tail);
    EraseBrokenText(before, Breaks(Anchor(url, url)) + tail);
    assert Breaks(before + (Anchor(url, url) + linked)) + rest == Breaks(before) + (Breaks(Anchor(url, url)) + tail);
  }

  // ---- the loops ------------------------------------------------------------------------------------

  method HtmlEscapeLoop(s: string) returns (out: string)
    ensures out == HtmlEscape(s)
  {
    out := "";
    for i := 0 to |s|
      invariant out == HtmlEscape(s[..i])
    {
      EscapeAppend(s[..i], [s[i]]);
      assert s[..i + 1] == s[..i] + [s[i]];
      assert HtmlEscape([s[i]]) == EscapeChar(s[i]);
      out := out + EscapeChar(s[i]);
    }
    assert s[..|s|] == s;
  }

  method LinkifyLoop(text: string) returns (out: string)
    ensures out == Linkify(text)
  {
    out := "";
    var rest := text;
    while FindUrlStart(rest).Some?
      invariant out + Linkify(rest) == Linkify(text)
      decreases |rest|
    {
      var start := FindUrlStart(rest).value;
      UrlProgress(rest, start);
      var after := rest[start..];
      var end := UrlEnd(after);
      var url := after[..end];
      ConcatAssociative(rest[..start], Anchor(url, url), Linkify(after[end..]));
      ConcatAssociative(out, rest[..start] + Anchor(url, url), Linkify(after[end..]));
      out := out + (rest[..start] + Anchor(url, url));
      rest := after[end..];
    }
    out := out + rest;
  }
}
