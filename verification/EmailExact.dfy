/** What the reply stripper takes for quoted history, written as the texts its patterns generate. */
module EmailExact {
  import opened Wrappers
  import opened Text
  import opened Email

  /** `word` in any mix of cases; `word` is in lower case. */
  ghost predicate Like(s: string, word: string) {
    |s| == |word| && forall i :: 0 <= i < |word| ==> s[i] == word[i] || ('a' <= word[i] <= 'z' && s[i] == word[i] - 32 as char)
  }

  ghost predicate Plain(word: string) {
    forall i :: 0 <= i < |word| ==> word[i] <= '~' && !('A' <= word[i] <= 'Z')
  }

  lemma NoCaseExact(s: string, word: string)
    requires Plain(word)
    ensures StartsWithNoCase(s, word) <==> |word| <= |s| && Like(s[..|word|], word)
  {
    if |word| <= |s| {
      assert forall i :: 0 <= i < |word| ==> s[..|word|][i] == s[i];
    }
  }

  lemma {:induction false} RunExact(s: string, c: char)
    ensures (forall i :: 0 <= i < Run(s, c) ==> s[i] == c) && (Run(s, c) < |s| ==> s[Run(s, c)] != c)
  {
    if s != [] && s[0] == c {
      RunExact(s[1..], c);
      assert forall i :: 0 < i < Run(s, c) ==> s[i] == s[1..][i - 1];
    }
  }

  /** A rule: five underscores or more, and nothing else. */
  lemma RuleExact(s: string)
    ensures Rule(s) <==> |s| >= 5 && forall i :: 0 <= i < |s| ==> s[i] == '_'
  {
    RunExact(s, '_');
  }

  /** "On", something, "wrote:", on one line. */
  lemma AttributionExact(s: string)
    ensures Attribution(s) <==> exists middle :: middle != [] && AllDots(middle) && s == "On " + middle + " wrote:"
  {
    if Attribution(s) {
      var middle := s[3..|s| - 7];
      assert s == s[..3] + middle + s[|s| - 7..];
    }
    if middle :| middle != [] && AllDots(middle) && s == "On " + middle + " wrote:" {
      assert s[3..|s| - 7] == middle && s[..3] == "On " && s[|s| - 7..] == " wrote:";
    }
  }

  /** "From:" in any case, a space, and something after it on the same line. */
  lemma HeaderExact(s: string)
    ensures HeaderBlock(s) <==>
            exists word, space, rest :: Like(word, "from:") && IsSpace(space) && rest != [] && AllDots(rest) && s == word + [space] + rest
  {
    hide IsSpace;
    NoCaseExact(s, "from:");
    if HeaderBlock(s) {
      assert s == s[..5] + [s[5]] + s[6..];
    }
    if word, space, rest :| Like(word, "from:") && IsSpace(space) && rest != [] && AllDots(rest) && s == word + [space] + rest {
      assert s[..5] == word && s[5] == space && s[6..] == rest;
    }
  }

  /** Hyphens, white space, "original message" in any case, white space, hyphens, and whatever follows. */
  ghost predicate OriginalMessageParts(s: string, n: nat, gap: string, word: string, gap': string, rest: string) {
    && n >= 2 && AllSpace(gap) && Like(word, "original message") && AllSpace(gap')
    && s == seq(n, _ => '-') + gap + word + gap' + "--" + rest
  }

  lemma TrimStartIs(gap: string, t: string)
    requires AllSpace(gap) && (t == [] || !IsSpace(t[0]))
    ensures TrimStart(gap + t) == t
  {
    hide IsSpace;
    TrimStartAppend(gap, t);
  }

  lemma RunIs(n: nat, c: char, t: string)
    requires t == [] || t[0] != c
    ensures Run(seq(n, _ => c) + t, c) == n
  {
    var s := seq(n, _ => c) + t;
    RunExact(s, c);
    var r := Run(s, c);
    assert t != [] ==> s[n] == t[0];
  }

  lemma LikeNotSpace(word: string)
    requires Like(word, "original message")
    ensures !IsSpace(word[0]) && word[0] != '-'
  {
    assert word[0] == 'o' || word[0] == 'O';
  }

  lemma SpaceIsNoHyphen(gap: string, t: string)
    requires AllSpace(gap) && (t == [] || t[0] != '-')
    ensures gap + t == [] || (gap + t)[0] != '-'
  {
    if gap != [] { assert (gap + t)[0] == gap[0] && IsSpace(gap[0]); }
  }

  lemma OriginalMessageExact(s: string)
    ensures OriginalMessage(s) <==> exists n, gap, word, gap', rest :: OriginalMessageParts(s, n, gap, word, gap', rest)
  {
    hide IsSpace;
    if OriginalMessage(s) {
      OriginalMessageSplits(s);
    }
    if n, gap, word, gap', rest :| OriginalMessageParts(s, n, gap, word, gap', rest) {
      OriginalMessageFound(s, n, gap, word, gap', rest);
    }
  }

  lemma TrimSplit(s: string) returns (gap: string)
    ensures AllSpace(gap) && s == gap + TrimStart(s)
  {
    hide IsSpace;
    TrimStartCuts(s);
    gap := s[..|s| - |TrimStart(s)|];
    assert s == gap + s[|gap|..];
  }

  lemma RunSplit(s: string, c: char)
    ensures s == seq(Run(s, c), _ => c) + s[Run(s, c)..]
  {
    RunExact(s, c);
  }

  lemma TwoHyphens(u: string)
    requires Run(u, '-') >= 2
    ensures |u| >= 2 && u == "--" + u[2..]
  {
    RunExact(u, '-');
  }

  lemma MessageSplits(t: string) returns (word: string, gap: string, rest: string)
    requires StartsWithNoCase(t, "original message") && Run(TrimStart(t[16..]), '-') >= 2
    ensures Like(word, "original message") && AllSpace(gap) && t == word + gap + "--" + rest
  {
    hide IsSpace, TrimStart, Run, Like;
    NoCaseExact(t, "original message");
    gap := TrimSplit(t[16..]);
    var u := TrimStart(t[16..]);
    TwoHyphens(u);
    word, rest := t[..16], u[2..];
    hide StartsWithNoCase, AllSpace;
    assert t == word + (gap + ("--" + rest));
  }

  lemma OriginalMessageSplits(s: string)
    requires OriginalMessage(s)
    ensures exists n, gap, word, gap', rest :: OriginalMessageParts(s, n, gap, word, gap', rest)
  {
    hide IsSpace, TrimStart, Run, Like, StartsWithNoCase, AllSpace;
    var n := Run(s, '-');
    RunSplit(s, '-');
    var gap := TrimSplit(s[n..]);
    var word, gap', rest := MessageSplits(TrimStart(s[n..]));
    var dashes := seq(n, _ => '-');
    assert s == dashes + (gap + (word + gap' + "--" + rest));
    assert s == dashes + gap + word + gap' + "--" + rest;
    assert OriginalMessageParts(s, n, gap, word, gap', rest);
  }

  lemma OriginalMessageFound(s: string, n: nat, gap: string, word: string, gap': string, rest: string)
    requires OriginalMessageParts(s, n, gap, word, gap', rest)
    ensures OriginalMessage(s)
  {
    var u := "--" + rest;
    var t := word + (gap' + u);
    var dashes := seq(n, _ => '-');
    assert s == dashes + (gap + t);
    LikeNotSpace(word);
    assert t[0] == word[0];
    SpaceIsNoHyphen(gap, t);
    hide IsSpace, TrimStart, Run;
    RunIs(n, '-', gap + t);
    assert s[n..] == gap + t;
    TrimStartIs(gap, t);
    NoCaseExact(t, "original message");
    assert t[..16] == word && t[16..] == gap' + u;
    assert !IsSpace('-') by { HyphenIsNoSpace(); }
    TrimStartIs(gap', u);
    RunExact(u, '-');
    assert u[0] == '-' && u[1] == '-';
  }

  lemma HyphenIsNoSpace()
    ensures !IsSpace('-')
  {
  }

  /** "Sent from my" in any case. */
  lemma SentFromExact(s: string)
    ensures StartsWithNoCase(s, "sent from my ") <==> |s| >= 13 && Like(s[..13], "sent from my ")
  {
    NoCaseExact(s, "sent from my ");
  }

  /** A quoted line: white space, then an angle bracket. */
  lemma QuotedExact(line: string)
    ensures Quoted(line) <==> exists k :: 0 <= k < |line| && line[k] == '>' && AllSpace(line[..k])
  {
    TrimStartCuts(line);
    var t := TrimStart(line);
    if Quoted(line) {
      assert line[|line| - |t|] == line[|line| - |t|..][0];
    }
    if k :| 0 <= k < |line| && line[k] == '>' && AllSpace(line[..k]) {
      assert line == line[..k] + line[k..] && !IsSpace('>');
      hide IsSpace;
      TrimStartIs(line[..k], line[k..]);
    }
  }

  /** A signature delimiter: two hyphens and white space. */
  lemma SignatureExact(line: string)
    ensures Signature(line) <==> exists gap :: AllSpace(gap) && line == "--" + gap
  {
    hide IsSpace;
    if Signature(line) { assert line == "--" + line[2..]; }
    if gap :| AllSpace(gap) && line == "--" + gap { assert line[2..] == gap; }
  }

  /** Exactly the quoted lines go, and the others keep their order. */
  lemma {:induction false} UnquotedExact(lines: seq<string>)
    ensures Unquoted(lines) == Filter((line: string) => !Quoted(line), lines)
  {
    hide Quoted;
    if lines != [] { UnquotedExact(lines[..|lines| - 1]); }
  }

  // ----- Line ends -----

  ghost predicate HasCrLf(s: string) {
    exists i :: 0 <= i < |s| - 1 && s[i] == '\r' && s[i + 1] == '\n'
  }

  /** Text without a carriage return before a line feed stays as it is. */
  lemma {:induction false} UnixFixed(s: string)
    requires !HasCrLf(s)
    ensures Unix(s) == s
  {
    if s != [] {
      forall i | 0 <= i < |s[1..]| - 1 ensures !(s[1..][i] == '\r' && s[1..][i + 1] == '\n') {
        assert s[1..][i] == s[i + 1] && s[1..][i + 1] == s[i + 2];
      }
      UnixFixed(s[1..]);
    }
  }

  /** Every carriage return before a line feed goes, and nothing else: it is so at each one. */
  lemma {:induction false} UnixAt(a: string, b: string)
    ensures Unix(a + "\r\n" + b) == Unix(a) + "\n" + Unix(b)
    decreases |a|
  {
    var s := a + "\r\n" + b;
    if a == [] {
      assert s[2..] == b && s[0] == '\r' && s[1] == '\n';
    } else if |a| >= 2 && a[0] == '\r' && a[1] == '\n' {
      UnixAt(a[2..], b);
      assert s[2..] == a[2..] + "\r\n" + b && s[0] == a[0] && s[1] == a[1];
      Regroup("\n", Unix(a[2..]), Unix(b));
    } else {
      UnixAt(a[1..], b);
      assert s[1..] == a[1..] + "\r\n" + b && s[0] == a[0];
      assert !(s[0] == '\r' && s[1] == '\n') by { if |a| >= 2 { assert s[1] == a[1]; } }
      Regroup([a[0]], Unix(a[1..]), Unix(b));
    }
  }

  lemma Regroup(head: string, a: string, b: string)
    ensures head + (a + "\n" + b) == (head + a) + "\n" + b
  {
  }

  /** Splitting at line feeds and joining again gives the text back, and no line holds one. */
  lemma SplitExact(s: string)
    ensures Join(Split(s, '\n'), "\n") == s
    ensures forall i :: 0 <= i < |Split(s, '\n')| ==> '\n' !in Split(s, '\n')[i]
  {
    hide Split, Join;
    SplitJoins(s);
    SplitParts(s);
  }

  lemma {:induction false} SplitParts(s: string)
    ensures forall i :: 0 <= i < |Split(s, '\n')| ==> '\n' !in Split(s, '\n')[i]
  {
    if s != [] { SplitParts(s[..|s| - 1]); }
  }

  lemma {:induction false} SplitJoins(s: string)
    ensures Join(Split(s, '\n'), "\n") == s
  {
    if s != [] {
      var n := |s| - 1;
      var parts := Split(s[..n], '\n');
      SplitJoins(s[..n]);
      hide Join;
      assert s == s[..n] + [s[n]];
      if s[n] == '\n' {
        JoinSnoc(parts, "\n", "");
        assert s[..n] + "\n" + "" == s;
      } else {
        var front, last := parts[..|parts| - 1], parts[|parts| - 1];
        assert parts == front + [last];
        JoinSnoc(front, "\n", last);
        JoinSnoc(front, "\n", last + [s[n]]);
        hide Split;
        if front != [] {
          assert Join(front, "\n") + "\n" + (last + [s[n]]) == Join(front, "\n") + "\n" + last + [s[n]];
        }
      }
    }
  }
}
