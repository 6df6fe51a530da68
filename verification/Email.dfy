/** Inbound replies lose their quoted history; outbound text is escaped for HTML. */
module Email {
  import opened Text

  // ----- Stripping quoted replies -----

  function AsciiLowerChar(c: char): char {
    if 'A' <= c <= 'Z' then c + 32 as char else c
  }

  /** `s` starts with `word`, whatever the case of its letters; `word` is in lower case. */
  predicate StartsWithNoCase(s: string, word: string) {
    |word| <= |s| && forall i :: 0 <= i < |word| ==> AsciiLowerChar(s[i]) == word[i]
  }

  /** How many characters at the start are `c`. */
  function Run(s: string, c: char): (n: nat)
    ensures n <= |s|
  {
    if s != [] && s[0] == c then 1 + Run(s[1..], c) else 0
  }

  /** What a dot in a pattern matches. */
  predicate Dot(c: char) {
    c != '\n' && c != '\r' && c != '\U{2028}' && c != '\U{2029}'
  }

  predicate AllDots(s: string) {
    forall i :: 0 <= i < |s| ==> Dot(s[i])
  }

  /** Two or more hyphens around "original message". */
  predicate OriginalMessage(s: string) {
    var n := Run(s, '-');
    var rest := TrimStart(s[n..]);
    n >= 2 && StartsWithNoCase(rest, "original message") && Run(TrimStart(rest[16..]), '-') >= 2
  }

  predicate Rule(s: string) {
    |s| >= 5 && Run(s, '_') == |s|
  }

  predicate Attribution(s: string) {
    |s| >= 11 && s[..3] == "On " && s[|s| - 7..] == " wrote:" && AllDots(s[3..|s| - 7])
  }

  predicate HeaderBlock(s: string) {
    |s| >= 7 && StartsWithNoCase(s, "from:") && IsSpace(s[5]) && AllDots(s[6..])
  }

  /** A line that begins the quoted history. */
  predicate Marker(line: string) {
    var s := Trim(line);
    OriginalMessage(s) || Rule(s) || Attribution(s) || HeaderBlock(s) || StartsWithNoCase(s, "sent from my ")
  }

  predicate Quoted(line: string) {
    var s := TrimStart(line);
    s != [] && s[0] == '>'
  }

  /** The signature delimiter of section 4.3 of RFC 3676, with any white space after the hyphens. */
  predicate Signature(line: string) {
    |line| >= 2 && line[..2] == "--" && AllSpace(line[2..])
  }

  /** Line `j` ends the body. */
  predicate Stops(lines: seq<string>, j: nat)
    requires j < |lines|
  {
    || Marker(lines[j])
    || (Quoted(lines[j]) && j > 0 && Quoted(lines[j - 1]))
    || (!Quoted(lines[j]) && Signature(lines[j]))
  }

  /** The body is everything before the first line that ends it. */
  function BodyEnd(lines: seq<string>, from: nat): (n: nat)
    requires from <= |lines|
    ensures from <= n <= |lines|
    decreases |lines| - from
  {
    if from == |lines| || Stops(lines, from) then from else BodyEnd(lines, from + 1)
  }

  lemma {:induction false} BodyEndIsFirstStop(lines: seq<string>, from: nat)
    requires from <= |lines|
    ensures forall j: nat :: from <= j < BodyEnd(lines, from) ==> !Stops(lines, j)
    ensures BodyEnd(lines, from) < |lines| ==> Stops(lines, BodyEnd(lines, from))
    decreases |lines| - from
  {
    hide Stops;
    if from < |lines| && !Stops(lines, from) {
      BodyEndIsFirstStop(lines, from + 1);
    }
  }

  function Unquoted(lines: seq<string>): seq<string> {
    if lines == [] then []
    else Unquoted(lines[..|lines| - 1]) + if Quoted(lines[|lines| - 1]) then [] else [lines[|lines| - 1]]
  }

  /** `text.replace(/\r\n/g, "\n")`. */
  function Unix(text: string): string {
    if text == [] then []
    else if |text| >= 2 && text[0] == '\r' && text[1] == '\n' then "\n" + Unix(text[2..])
    else [text[0]] + Unix(text[1..])
  }

  /** The fresh part of a reply: its unquoted lines before the first that ends the body, trimmed. */
  function FreshText(text: string): string {
    var lines := Split(Unix(text), '\n');
    Trim(Join(Unquoted(lines[..BodyEnd(lines, 0)]), "\n"))
  }

  lemma JoinLast(kept: seq<string>)
    requires |kept| > 1
    ensures Join(kept, "\n") == Join(kept[..|kept| - 1], "\n") + ("\n" + kept[|kept| - 1])
  {
    var front := Join(kept[..|kept| - 1], "\n");
    assert front + "\n" + kept[|kept| - 1] == front + ("\n" + kept[|kept| - 1]);
  }

  /** A blank last line never survives the final trim. */
  lemma {:induction false} PopBlank(kept: seq<string>)
    requires kept != [] && Trim(kept[|kept| - 1]) == ""
    ensures Trim(Join(kept[..|kept| - 1], "\n")) == Trim(Join(kept, "\n"))
  {
    hide Trim, Join;
    var last := kept[|kept| - 1];
    TrimEmpty(last);
    if |kept| == 1 {
      JoinOne(last);
      assert kept == [last] && kept[..0] == [] && "" + last == last;
      TrimTail("", last);
    } else {
      JoinLast(kept);
      TrimTail(Join(kept[..|kept| - 1], "\n"), "\n" + last);
    }
  }

  lemma JoinOne(s: string)
    ensures Join([], "\n") == "" && Join([s], "\n") == s
  {
  }

  lemma TrimEmpty(s: string)
    requires Trim(s) == ""
    ensures AllSpace(s)
  {
    hide IsSpace;
    var t := TrimStart(s);
    TrimStartCuts(s);
    TrimEndCuts(t);
    assert t[0..] == t;
    assert s == s[..|s| - |t|] + t;
  }

  /** Strip quoted history and a trailing signature. */
  method StripQuotedReply(text: string) returns (body: string)
    ensures body == FreshText(text)
  {
    var lines := Split(Unix(text), '\n');
    var kept := StripLines(lines);
    body := Trim(Join(kept, "\n"));
  }

  /** The loop, with its early removal of blank lines; that removal never shows in the trimmed text. */
  method StripLines(lines: seq<string>) returns (kept: seq<string>)
    ensures Trim(Join(kept, "\n")) == Trim(Join(Unquoted(lines[..BodyEnd(lines, 0)]), "\n"))
  {
    hide Marker, Quoted, Signature, Join, Trim;
    kept := [];
    var consecutiveQuoted := 0;
    ghost var end := BodyEnd(lines, 0);
    BodyEndIsFirstStop(lines, 0);
    for j := 0 to |lines|
      invariant j <= end && kept == Unquoted(lines[..j])
      invariant consecutiveQuoted <= 1
      invariant consecutiveQuoted == 1 <==> j > 0 && Quoted(lines[j - 1])
    {
      assert lines[..j + 1][..j] == lines[..j];
      var line := lines[j];
      if Marker(line) {
        assert Stops(lines, j);
        return;
      }
      if Quoted(line) {
        consecutiveQuoted := consecutiveQuoted + 1;
        if consecutiveQuoted >= 2 {
          assert Stops(lines, j);
          kept := PopBlanks(kept);
          return;
        }
        continue;
      }
      consecutiveQuoted := 0;
      if Signature(line) {
        assert Stops(lines, j);
        return;
      }
      kept := kept + [line];
    }
  }

  method PopBlanks(kept: seq<string>) returns (r: seq<string>)
    ensures r <= kept && (r == [] || Trim(r[|r| - 1]) != "")
    ensures Trim(Join(r, "\n")) == Trim(Join(kept, "\n"))
  {
    r := kept;
    while |r| > 0 && Trim(r[|r| - 1]) == ""
      invariant r <= kept && Trim(Join(r, "\n")) == Trim(Join(kept, "\n"))
      decreases |r|
    {
      PopBlank(r);
      r := r[..|r| - 1];
    }
  }

  // ----- Escaping -----

  /** A global replacement of one character. */
  function Replace(s: string, c: char, entity: string): string {
    if s == [] then [] else (if s[0] == c then entity else [s[0]]) + Replace(s[1..], c, entity)
  }

  /** The four replacements, one after the other. */
  function EscapeHtml(s: string): string {
    Replace(Replace(Replace(Replace(s, '&', "&amp;"), '<', "&lt;"), '>', "&gt;"), '"', "&quot;")
  }

  function Entity(c: char): string {
    if c == '&' then "&amp;" else if c == '<' then "&lt;" else if c == '>' then "&gt;" else if c == '"' then "&quot;" else [c]
  }

  /** One pass over the text. */
  function Escaped(s: string): string {
    if s == [] then [] else Entity(s[0]) + Escaped(s[1..])
  }

  /** Reading entities back, left to right. */
  function Decode(s: string): string
    decreases |s|
  {
    if s == [] then []
    else if "&amp;" <= s then "&" + Decode(s[5..])
    else if "&lt;" <= s then "<" + Decode(s[4..])
    else if "&gt;" <= s then ">" + Decode(s[4..])
    else if "&quot;" <= s then "\"" + Decode(s[6..])
    else [s[0]] + Decode(s[1..])
  }

  lemma {:induction false} ReplaceAdds(a: string, b: string, c: char, entity: string)
    ensures Replace(a + b, c, entity) == Replace(a, c, entity) + Replace(b, c, entity)
  {
    if a == [] {
      assert a + b == b;
    } else {
      assert (a + b)[1..] == a[1..] + b;
      ReplaceAdds(a[1..], b, c, entity);
    }
  }

  lemma {:induction false} ReplaceMisses(s: string, c: char, entity: string)
    requires c !in s
    ensures Replace(s, c, entity) == s
  {
    if s != [] { ReplaceMisses(s[1..], c, entity); }
  }

  lemma EscapeAdds(a: string, b: string)
    ensures EscapeHtml(a + b) == EscapeHtml(a) + EscapeHtml(b)
  {
    var a1, b1 := Replace(a, '&', "&amp;"), Replace(b, '&', "&amp;");
    var a2, b2 := Replace(a1, '<', "&lt;"), Replace(b1, '<', "&lt;");
    var a3, b3 := Replace(a2, '>', "&gt;"), Replace(b2, '>', "&gt;");
    ReplaceAdds(a, b, '&', "&amp;");
    ReplaceAdds(a1, b1, '<', "&lt;");
    ReplaceAdds(a2, b2, '>', "&gt;");
    ReplaceAdds(a3, b3, '"', "&quot;");
  }

  lemma ReplaceOne(x: char, c: char, entity: string)
    ensures Replace([x], c, entity) == if x == c then entity else [x]
  {
    assert [x][1..] == [];
  }

  lemma EscapeOne(c: char)
    ensures EscapeHtml([c]) == Entity(c)
  {
    hide Replace;
    var s1 := Replace([c], '&', "&amp;");
    ReplaceOne(c, '&', "&amp;");
    var s2 := Replace(s1, '<', "&lt;");
    if c == '&' { ReplaceMisses(s1, '<', "&lt;"); } else { ReplaceOne(c, '<', "&lt;"); }
    var s3 := Replace(s2, '>', "&gt;");
    if c == '&' || c == '<' { ReplaceMisses(s2, '>', "&gt;"); } else { ReplaceOne(c, '>', "&gt;"); }
    if c == '&' || c == '<' || c == '>' { ReplaceMisses(s3, '"', "&quot;"); } else { ReplaceOne(c, '"', "&quot;"); }
  }

  /**
   * The order of the four replacements does not double-escape: together they
   * are one pass that replaces each character by its entity.
   */
  lemma {:induction false} EscapeIsOnePass(s: string)
    ensures EscapeHtml(s) == Escaped(s)
  {
    if s != [] {
      assert s == [s[0]] + s[1..];
      EscapeAdds([s[0]], s[1..]);
      EscapeOne(s[0]);
      EscapeIsOnePass(s[1..]);
    }
  }

  lemma {:induction false} EscapedIsInert(s: string)
    ensures '<' !in Escaped(s) && '>' !in Escaped(s) && '"' !in Escaped(s)
  {
    if s != [] { EscapedIsInert(s[1..]); }
  }

  /** Escaped text holds no raw angle bracket or double quote. */
  lemma EscapeIsInert(s: string)
    ensures '<' !in EscapeHtml(s) && '>' !in EscapeHtml(s) && '"' !in EscapeHtml(s)
  {
    EscapeIsOnePass(s);
    EscapedIsInert(s);
  }

  lemma DecodeEntity(c: char, rest: string)
    ensures Decode(Entity(c) + rest) == [c] + Decode(rest)
  {
    var s := Entity(c) + rest;
    assert s[|Entity(c)|..] == rest;
    if c == '&' { assert "&amp;" <= s; }
    else if c == '<' { assert s[1] == 'l'; assert "&lt;" <= s; }
    else if c == '>' { assert s[1] == 'g'; assert "&gt;" <= s; }
    else if c == '"' { assert s[1] == 'q'; assert "&quot;" <= s; }
    else { assert s[0] == c; }
  }

  /** Round trip: reading the entities back gives every text again. */
  lemma {:induction false} EscapeRoundTrip(s: string)
    ensures Decode(EscapeHtml(s)) == s
  {
    EscapeIsOnePass(s);
    if s != [] {
      EscapeRoundTrip(s[1..]);
      EscapeIsOnePass(s[1..]);
      DecodeEntity(s[0], Escaped(s[1..]));
    }
  }
}
