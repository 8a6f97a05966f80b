/** The hand-over between the two halves of the pipeline: the WebVTT file that
    whisperx_script.py writes is what analyze_with_ollama.py reads back. As long as
    the timestamps and the cue texts are single lines and no text holds the `-->` of a
    timing line, the reader recovers exactly the text line of every cue, in order. */
module VttRoundTrip {
  import opened Strings
  import opened WhisperxScript
  import opened AnalyzeWithOllama

  /** The timing line of a cue. */
  function Timing(s: Segment, ts: real -> string): string
    requires Complete(s)
  {
    ts(s.start.value) + " --> " + ts(s.end.value)
  }

  /** A segment whose cue, if it has one, reads back: single-line timestamps, a
      single-line text line without `-->`. */
  predicate Readable(s: Segment, agentName: string, ts: real -> string) {
    Complete(s) ==>
      && NoLineBreak(ts(s.start.value)) && NoLineBreak(ts(s.end.value))
      && NoLineBreak(CueText(s, agentName)) && !Contains(CueText(s, agentName), "-->")
  }

  /** A line that opens with a bracket and ends with a visible character. */
  predicate Bracketed(x: string) {
    x != [] && x[0] == '[' && !IsSpace(x[|x| - 1])
  }

  /** The text line of a cue opens with a bracket and ends with a visible character. */
  lemma CueTextStripped(s: Segment, agentName: string)
    requires Complete(s)
    ensures Bracketed(CueText(s, agentName))
  {
    StrippedBracket(CueText(s, agentName), CueName(s, agentName), TextOf(s));
  }

  /** A line `[name] text` where `text` is a non-empty `strip` is bracketed. */
  lemma StrippedBracket(x: string, name: string, raw: string)
    requires x == "[" + name + "] " + Strip(raw) && Strip(raw) != []
    ensures Bracketed(x)
  {
    StripLast(raw);
    BracketedLine(x, name, Strip(raw));
  }

  /** So is a line `[name] text` whose text ends with a visible character. */
  lemma BracketedLine(x: string, name: string, t: string)
    requires x == "[" + name + "] " + t && t != [] && !IsSpace(t[|t| - 1])
    ensures Bracketed(x)
  {
    assert x[0] == '[';
    assert x[|x| - 1] == t[|t| - 1];
  }

  /** A line that opens with a bracket is its own `strip`, and without an arrow the
      reader keeps it. */
  lemma BracketKept(x: string)
    requires Bracketed(x) && !Contains(x, "-->")
    ensures Strip(x) == x && Kept(x)
  {
    assert !IsSpace(x[0]);
    StripUnpadded(x);
    DifferentStart(x, "WEBVTT");
  }

  /** A string does not start with a word whose first character differs from its own. */
  lemma DifferentStart(x: string, w: string)
    requires x != [] && w != [] && x[0] != w[0]
    ensures !StartsWith(x, w)
  {
    if |w| <= |x| {
      assert x[..|w|][0] == x[0];
    }
  }


  /** The timing line is a single line that the reader skips. */
  lemma TimingSkipped(s: Segment, ts: real -> string)
    requires Complete(s) && NoLineBreak(ts(s.start.value)) && NoLineBreak(ts(s.end.value))
    ensures NoLineBreak(Timing(s, ts)) && Skipped(Timing(s, ts))
  {
    ArrowLine(ts(s.start.value), ts(s.end.value));
  }

  /** Two single lines around an arrow make a single line holding the arrow. */
  lemma ArrowLine(a: string, b: string)
    requires NoLineBreak(a) && NoLineBreak(b)
    ensures NoLineBreak(a + " --> " + b) && Skipped(a + " --> " + b)
  {
    var line := a + " --> " + b;
    forall q | 0 <= q < |line| ensures !IsLineBreak(line[q]) {
      if q < |a| {
        assert line[q] == a[q];
      } else if q >= |a| + 5 {
        assert line[q] == b[q - |a| - 5];
      }
    }
    assert line[|a| + 1..|a| + 4] == "-->";
    ContainsAt(line, "-->", |a| + 1);
  }


  /** Of a skipped line, a kept line and a skipped line, the reader keeps the middle one. */
  lemma KeptMiddle(a: string, b: string, c: string)
    requires Skipped(a) && Kept(b) && Skipped(c)
    ensures KeptLines([a, b, c]) == [Strip(b)]
  {
    var three := [a, b, c];
    assert three[..2][..1] == [a] && three[..2] == [a, b] && [a, b][..1] == [a];
    assert [a][..0] == [];
    assert KeysWhere([], Kept, Strip) == [];
    assert KeptLines([a]) == [];
    assert KeptLines([a, b]) == [Strip(b)];
  }

  /** The three lines of a readable cue are single lines, and the reader keeps only the
      text line. */
  lemma CueReadBack(s: Segment, agentName: string, ts: real -> string)
    requires Complete(s) && Readable(s, agentName, ts)
    ensures forall k | 0 <= k < 3 :: NoLineBreak(Cue(s, agentName, ts)[k])
    ensures KeptLines(Cue(s, agentName, ts)) == [CueText(s, agentName)]
  {
    TimingSkipped(s, ts);
    CueTextStripped(s, agentName);
    ThreeLines(Timing(s, ts), CueText(s, agentName));
  }

  /** A skipped line, a bracketed line without an arrow and a blank line are single
      lines, and the reader keeps the middle one as it is. */
  lemma ThreeLines(a: string, x: string)
    requires NoLineBreak(a) && Skipped(a)
    requires NoLineBreak(x) && Bracketed(x) && !Contains(x, "-->")
    ensures forall k | 0 <= k < 3 :: NoLineBreak([a, x, ""][k])
    ensures KeptLines([a, x, ""]) == [x]
  {
    BracketKept(x);
    SkippedWhen("");
    KeptMiddle(a, x, "");
  }

  /** Every line after the header is a single line. */
  lemma {:induction false} CueLinesSingle(segs: seq<Segment>, agentName: string, ts: real -> string)
    requires forall i | 0 <= i < |segs| :: Readable(segs[i], agentName, ts)
    ensures forall k | 0 <= k < |CueLines(segs, agentName, ts)| :: NoLineBreak(CueLines(segs, agentName, ts)[k])
  {
    if segs != [] {
      var init, last := segs[..|segs| - 1], segs[|segs| - 1];
      CueLinesSingle(init, agentName, ts);
      if Complete(last) {
        CueReadBack(last, agentName, ts);
      }
    }
  }

  /** Reading the lines after the header gives the cue texts. */
  lemma {:induction false} CueLinesReadBack(segs: seq<Segment>, agentName: string, ts: real -> string)
    requires forall i | 0 <= i < |segs| :: Readable(segs[i], agentName, ts)
    ensures KeptLines(CueLines(segs, agentName, ts)) == CueTexts(segs, agentName)
  {
    if segs != [] {
      var init, last := segs[..|segs| - 1], segs[|segs| - 1];
      CueLinesReadBack(init, agentName, ts);
      if Complete(last) {
        CueReadBack(last, agentName, ts);
        KeysWhereAppend(CueLines(init, agentName, ts), Cue(last, agentName, ts), Kept, Strip);
      } else {
        calc {
          CueLines(segs, agentName, ts);
          CueLines(init, agentName, ts) + [];
          CueLines(init, agentName, ts);
        }
        calc {
          CueTexts(segs, agentName);
          CueTexts(init, agentName) + [];
          CueTexts(init, agentName);
        }
      }
    }
  }

  /** When there are cues, the lines end with the blank line of the last cue, right
      after its text line. */
  lemma {:induction false} CueLinesEnd(segs: seq<Segment>, agentName: string, ts: real -> string)
    requires CueLines(segs, agentName, ts) != []
    ensures var c := CueLines(segs, agentName, ts);
      && |c| >= 2 && c[|c| - 1] == ""
      && c[|c| - 2] != [] && !IsSpace(c[|c| - 2][|c[|c| - 2]| - 1])
  {
    var init, last := segs[..|segs| - 1], segs[|segs| - 1];
    if Complete(last) {
      CueTextStripped(last, agentName);
    } else {
      assert CueLines(segs, agentName, ts) == CueLines(init, agentName, ts) + [];
      CueLinesEnd(init, agentName, ts);
    }
  }

  /** Without cues the file is the header line alone. */
  lemma FileLinesEmpty(segs: seq<Segment>, agentName: string, ts: real -> string)
    requires CueLines(segs, agentName, ts) == []
    ensures VttText(CueLines(segs, agentName, ts)) == Terminated(Header[..1])
  {
    JoinHeader([]);
    assert Header + [] == Header;
    assert Join(Header, "\n") == "WEBVTT" + "\n";
    RStripPadded("WEBVTT", "\n");
    assert Header[..1] == ["WEBVTT"];
  }

  /** With cues, `rstrip` takes off the blank line of the last cue, and the file is the
      header and all other lines, each ended by a line break. */
  lemma FileLinesCues(segs: seq<Segment>, agentName: string, ts: real -> string)
    requires CueLines(segs, agentName, ts) != []
    ensures var c := CueLines(segs, agentName, ts);
      |c| >= 2 && c[|c| - 1] == "" && VttText(c) == Terminated(Header + c[..|c| - 1])
  {
    var c := CueLines(segs, agentName, ts);
    CueLinesEnd(segs, agentName, ts);
    var body := c[..|c| - 1];
    var m := Header + body;
    var j := Join(m, "\n");
    LastLineVisible(body);
    calc {
      VttText(c);
      RStrip(Join(Header + c, "\n")) + "\n";
      { assert Header + c == m + [""]; JoinAppend(m, "", "\n"); }
      RStrip(j + "\n" + "") + "\n";
      { assert j + "\n" + "" == j + "\n"; RStripPadded(j, "\n"); }
      j + "\n";
      { JoinTerminated(m); }
      Terminated(m);
    }
  }

  /** Lines after the header whose last one ends with a visible character join into a
      text that ends with that character. */
  lemma LastLineVisible(body: seq<string>)
    requires body != [] && body[|body| - 1] != []
    requires !IsSpace(body[|body| - 1][|body[|body| - 1]| - 1])
    ensures var j := Join(Header + body, "\n"); j != [] && !IsSpace(j[|j| - 1])
  {
    var last := body[|body| - 1];
    var init := Header + body[..|body| - 1];
    assert Header + body == init + [last];
    JoinAppend(init, last, "\n");
    var j := Join(Header + body, "\n");
    assert j == Join(init, "\n") + "\n" + last;
    assert j[|j| - 1] == last[|last| - 1];
  }

  /** A single skipped line leaves nothing to keep. */
  lemma KeptNone(x: string)
    requires Skipped(x)
    ensures KeptLines([x]) == []
  {
    assert [x][..0] == [];
    assert KeysWhere([], Kept, Strip) == [];
  }

  /** A blank line, and a line that starts with the marker once stripped, are skipped. */
  lemma SkippedWhen(x: string)
    requires Strip(x) == [] || StartsWith(Strip(x), "WEBVTT")
    ensures Skipped(x)
  {
  }

  lemma MarkerSkipped(w: string)
    requires w == "WEBVTT"
    ensures Skipped(w)
  {
    StripUnpadded(w);
    SkippedWhen(w);
  }

  lemma MarkerSingle(w: string)
    requires w == "WEBVTT"
    ensures NoLineBreak(w)
  {
  }

  /** Both lines of the header are single lines. */
  lemma HeaderSingle()
    ensures forall k | 0 <= k < |Header| :: NoLineBreak(Header[k])
  {
    MarkerSingle(Header[0]);
  }

  /** The reader skips a blank line. */
  lemma BlankKeptNone()
    ensures KeptLines([""]) == []
  {
    SkippedWhen("");
    KeptNone("");
  }

  /** The reader skips the marker line. */
  lemma MarkerKeptNone()
    ensures KeptLines(Header[..1]) == []
  {
    MarkerSkipped(Header[0]);
    assert Header[..1] == [Header[0]];
    KeptNone(Header[0]);
  }

  /** The reader skips both lines of the header. */
  lemma HeaderKeptNone()
    ensures KeptLines(Header) == []
  {
    MarkerKeptNone();
    BlankKeptNone();
    assert Header == Header[..1] + [""];
    KeysWhereAppend(Header[..1], [""], Kept, Strip);
  }

  /** The header and a trailing blank line add nothing to what the reader keeps. */
  lemma KeptWithoutFrame(body: seq<string>)
    ensures KeptLines(Header + body) == KeptLines(body + [""])
  {
    KeysWhereAppend(body, [""], Kept, Strip);
    KeysWhereAppend(Header, body, Kept, Strip);
    HeaderKeptNone();
    BlankKeptNone();
    calc {
      KeptLines(Header + body);
      KeptLines(Header) + KeptLines(body);
      [] + KeptLines(body);
      KeptLines(body) + [];
      KeptLines(body) + KeptLines([""]);
      KeptLines(body + [""]);
    }
  }

  /** The file as a list of terminated lines that the reader keeps like the cue lines. */
  lemma FileLines(segs: seq<Segment>, agentName: string, ts: real -> string) returns (m: seq<string>)
    requires forall i | 0 <= i < |segs| :: Readable(segs[i], agentName, ts)
    ensures VttText(CueLines(segs, agentName, ts)) == Terminated(m)
    ensures KeptLines(m) == KeptLines(CueLines(segs, agentName, ts))
    ensures forall k | 0 <= k < |m| :: NoLineBreak(m[k])
  {
    var c := CueLines(segs, agentName, ts);
    CueLinesSingle(segs, agentName, ts);
    HeaderSingle();
    MarkerKeptNone();
    if c == [] {
      m := Header[..1];
      FileLinesEmpty(segs, agentName, ts);
    } else {
      FileLinesCues(segs, agentName, ts);
      var body := c[..|c| - 1];
      m := Header + body;
      KeptWithoutFrame(body);
      assert body + [""] == c;
      forall k | 0 <= k < |m| ensures NoLineBreak(m[k]) {
        if k >= 2 {
          assert m[k] == c[k - 2];
        }
      }
    }
  }

  /** The reader recovers the text line of every cue of the written file, in order,
      joined by single spaces. */
  lemma VttReadBack(segs: seq<Segment>, agentName: string, ts: real -> string)
    requires forall i | 0 <= i < |segs| :: Readable(segs[i], agentName, ts)
    ensures TranscriptText(VttText(CueLines(segs, agentName, ts))) == Join(CueTexts(segs, agentName), " ")
  {
    var m := FileLines(segs, agentName, ts);
    SplitLinesTerminated(m);
    CueLinesReadBack(segs, agentName, ts);
  }
}
