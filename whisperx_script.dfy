/** Speaker labelling and WebVTT output of whisperx_script.py. A segment carries what
    WhisperX reports for it; the labelling guesses which speaker is the agent from
    keywords, and the writer emits one cue per complete segment. Formatting a time
    (`seconds_to_timestamp`) is the parameter `ts`. */
module WhisperxScript {
  import opened Optional
  import opened Strings

  const AgentKeywords: seq<string> := [
    "service", "support", "help", "assistance", "technical", "customer", "agent",
    "representative", "specialist", "advisor", "consultant", "uw", "service center",
    "help desk", "net id", "netid", "recovery code", "verify", "zoom", "meeting",
    "identity", "thank you", "have a good"]

  const UserPhrases: seq<string> := ["my netid is", "i'll open zoom", "that worked", "no that's it", "take care"]

  const ShortResponses: seq<string> := [
    "yes", "no", "ok", "okay", "yeah", "sure", "right", "i can", "i will", "i have", "i do",
    "i am", "that's right", "exactly", "correct", "true", "false"]

  /** The label the writer uses for segments classified as the caller. */
  const UserLabel: string := "user"

  /** One segment: its times (absent when WhisperX gives none), its text, the diarized
      speaker, and the label `label_segments` adds. */
  datatype Segment = Segment(
    start: Option<real>,
    end: Option<real>,
    text: Option<string>,
    speaker: Option<string>,
    speakerLabel: Option<string>)

  /** `segment.get("text") or ""`. */
  function TextOf(s: Segment): string {
    if s.text.Some? then s.text.value else ""
  }

  /** `any(w in text for w in words)`. */
  predicate AnyIn(text: string, words: seq<string>) {
    exists k | 0 <= k < |words| :: Contains(text, words[k])
  }

  /** `any(text.startswith(w) for w in words)`. */
  predicate AnyPrefix(text: string, words: seq<string>) {
    exists k | 0 <= k < |words| :: StartsWith(text, words[k])
  }

  /** A segment that gives its speaker away as the agent: a speaker is set and the
      lower-cased text holds an agent keyword. */
  predicate NamesAgent(s: Segment) {
    Truthy(s.speaker) && AnyIn(Lower(TextOf(s)), AgentKeywords)
  }

  /** `select_agent_speaker`: the speaker of the first segment that names the agent. */
  function SelectAgentSpeaker(segs: seq<Segment>): Option<string> {
    FirstSpeaker(segs, NamesAgent)
  }

  /** The speaker of the first segment that `names` accepts. */
  function FirstSpeaker(segs: seq<Segment>, names: Segment -> bool): Option<string> {
    if segs == [] then None
    else if names(segs[0]) then segs[0].speaker
    else FirstSpeaker(segs[1..], names)
  }

  /** When every accepted segment has a speaker, the search finds the first accepted
      segment, and finds nothing exactly when no segment is accepted. */
  lemma {:induction false} FirstSpeakerFirst(segs: seq<Segment>, names: Segment -> bool)
    requires forall s: Segment :: names(s) ==> s.speaker.Some?
    ensures FirstSpeaker(segs, names).None? <==> forall i | 0 <= i < |segs| :: !names(segs[i])
    ensures FirstSpeaker(segs, names).Some? ==>
      exists i | 0 <= i < |segs| ::
        && names(segs[i]) && segs[i].speaker == FirstSpeaker(segs, names)
        && forall j | 0 <= j < i :: !names(segs[j])
  {
    if segs != [] && !names(segs[0]) {
      var rest := segs[1..];
      FirstSpeakerFirst(rest, names);
      if FirstSpeaker(rest, names).Some? {
        var i :| 0 <= i < |rest| && names(rest[i]) && rest[i].speaker == FirstSpeaker(rest, names)
          && forall j | 0 <= j < i :: !names(rest[j]);
        assert segs[i + 1] == rest[i];
        forall j | 0 <= j < i + 1 ensures !names(segs[j]) {
          if j > 0 {
            assert segs[j] == rest[j - 1];
          }
        }
      }
      forall i | 0 < i < |segs| ensures segs[i] == rest[i - 1] {
      }
    }
  }

  /** The search finds the first segment naming the agent, and finds nothing exactly
      when no segment names it; a speaker it finds is never empty. */
  lemma SelectAgentSpeakerFirst(segs: seq<Segment>)
    ensures SelectAgentSpeaker(segs).None? <==> forall i | 0 <= i < |segs| :: !NamesAgent(segs[i])
    ensures SelectAgentSpeaker(segs).Some? ==>
      && Truthy(SelectAgentSpeaker(segs))
      && exists i | 0 <= i < |segs| ::
        && NamesAgent(segs[i]) && segs[i].speaker == SelectAgentSpeaker(segs)
        && forall j | 0 <= j < i :: !NamesAgent(segs[j])
  {
    FirstSpeakerFirst(segs, NamesAgent);
  }

  /** The text `classify_segment` looks at: stripped, then lower-cased. */
  function ClassifiedText(s: Segment): string {
    Lower(Strip(TextOf(s)))
  }

  /** The text alone settles the label: an agent keyword, a caller phrase, or a short
      answer at the start of a text of at most 30 characters. */
  predicate TextDecides(s: Segment) {
    var t := ClassifiedText(s);
    AnyIn(t, AgentKeywords) || AnyIn(t, UserPhrases) || (|t| <= 30 && AnyPrefix(t, ShortResponses))
  }

  /** `classify_segment`: the rules in order, the first that applies decides. */
  function Classify(s: Segment, agentName: string, agentSpeaker: Option<string>): (r: string)
    ensures r == agentName || r == UserLabel
  {
    Decide(ClassifiedText(s), s.speaker, agentName, agentSpeaker)
  }

  /** The rules of `classify_segment` on the prepared text and the segment's speaker. */
  function Decide(t: string, speaker: Option<string>, agentName: string, agentSpeaker: Option<string>): (r: string)
    ensures r == agentName || r == UserLabel
  {
    if AnyIn(t, AgentKeywords) then agentName
    else if AnyIn(t, UserPhrases) then UserLabel
    else if |t| <= 30 && AnyPrefix(t, ShortResponses) then UserLabel
    else if Truthy(speaker) && speaker == agentSpeaker then agentName
    else if Truthy(speaker) && agentSpeaker.None? then agentName
    else UserLabel
  }

  /** Where the text settles the label, neither the speaker nor the chosen agent speaker
      matters, and an agent keyword beats everything else. */
  lemma ClassifyByText(s: Segment, agentName: string, agentSpeaker: Option<string>, speaker: Option<string>, other: Option<string>)
    requires TextDecides(s)
    ensures Classify(s, agentName, agentSpeaker) == Classify(s.(speaker := speaker), agentName, other)
    ensures AnyIn(ClassifiedText(s), AgentKeywords) ==> Classify(s, agentName, agentSpeaker) == agentName
    ensures !AnyIn(ClassifiedText(s), AgentKeywords) ==> Classify(s, agentName, agentSpeaker) == UserLabel
  {
    assert ClassifiedText(s.(speaker := speaker)) == ClassifiedText(s);
  }

  /** Otherwise the speaker settles it: the agent is a segment with a speaker that is the
      chosen agent speaker, or any segment with a speaker when none was chosen. */
  lemma ClassifyBySpeaker(s: Segment, agentName: string, agentSpeaker: Option<string>)
    requires !TextDecides(s) && agentName != UserLabel
    ensures Classify(s, agentName, agentSpeaker) == agentName <==>
      Truthy(s.speaker) && (s.speaker == agentSpeaker || agentSpeaker.None?)
  {
  }

  /** Every keyword of the lists starts and ends with a non-space character. */
  lemma AgentKeywordsUnpadded()
    ensures forall k | 0 <= k < |AgentKeywords| ::
      AgentKeywords[k] != [] && !IsSpace(AgentKeywords[k][0]) && !IsSpace(AgentKeywords[k][|AgentKeywords[k]| - 1])
  {
  }

  /** The segment that names the agent is itself labelled as the agent, whatever speaker
      was chosen: the keyword `select_agent_speaker` saw survives the `strip` that
      `classify_segment` applies first. */
  lemma NamingSegmentIsAgent(s: Segment, agentName: string, agentSpeaker: Option<string>)
    requires NamesAgent(s)
    ensures Classify(s, agentName, agentSpeaker) == agentName
  {
    AgentKeywordsUnpadded();
    AnyInStrip(TextOf(s), AgentKeywords);
  }

  /** Words with non-space ends found in a lower-cased text are still found once the
      text is stripped. */
  lemma AnyInStrip(text: string, words: seq<string>)
    requires forall k | 0 <= k < |words| :: words[k] != [] && !IsSpace(words[k][0]) && !IsSpace(words[k][|words[k]| - 1])
    requires AnyIn(Lower(text), words)
    ensures AnyIn(Lower(Strip(text)), words)
  {
    var k :| 0 <= k < |words| && Contains(Lower(text), words[k]);
    ContainsLowerStrip(text, words[k]);
  }

  /** The segments with the labels `verdict` gives them; nothing else changes. */
  function LabelAll(segs: seq<Segment>, verdict: Segment -> string): (r: seq<Segment>)
    ensures |r| == |segs|
  {
    if segs == [] then []
    else LabelAll(segs[..|segs| - 1], verdict) + [segs[|segs| - 1].(speakerLabel := Some(verdict(segs[|segs| - 1])))]
  }

  /** Labelling is pointwise: the i-th result is the i-th segment with its own label. */
  lemma {:induction false} LabelAllAt(segs: seq<Segment>, verdict: Segment -> string, i: nat)
    requires i < |segs|
    ensures LabelAll(segs, verdict)[i] == segs[i].(speakerLabel := Some(verdict(segs[i])))
  {
    var init := segs[..|segs| - 1];
    if i < |init| {
      LabelAllAt(init, verdict, i);
    }
  }

  /** The classification `label_segments` applies, once the agent speaker is chosen. */
  function Verdict(agentName: string, agent: Option<string>): Segment -> string {
    s => Classify(s, agentName, agent)
  }

  /** What `label_segments` returns. */
  function Relabel(segs: seq<Segment>, agentName: string): seq<Segment> {
    LabelAll(segs, Verdict(agentName, SelectAgentSpeaker(segs)))
  }

  lemma LabelAllSnoc(segs: seq<Segment>, verdict: Segment -> string, i: nat)
    requires i < |segs|
    ensures LabelAll(segs[..i + 1], verdict) == LabelAll(segs[..i], verdict) + [segs[i].(speakerLabel := Some(verdict(segs[i])))]
  {
    assert segs[..i + 1][..i] == segs[..i];
  }

  /** `label_segments`: choose the agent speaker once, then label the segments in order. */
  method LabelSegments(segs: seq<Segment>, agentName: string) returns (labelled: seq<Segment>)
    ensures labelled == Relabel(segs, agentName)
  {
    var agent := SelectAgentSpeaker(segs);
    labelled := [];
    var i := 0;
    while i < |segs|
      invariant 0 <= i <= |segs|
      invariant labelled == LabelAll(segs[..i], Verdict(agentName, agent))
    {
      var verdict := Classify(segs[i], agentName, agent);
      LabelAllSnoc(segs, Verdict(agentName, agent), i);
      labelled := labelled + [segs[i].(speakerLabel := Some(verdict))];
      i := i + 1;
    }
    assert segs[..i] == segs;
  }

  /** A label already present is ignored by the classification. */
  lemma ClassifyIgnoresLabel(s: Segment, agentName: string, agent: Option<string>, previous: Option<string>)
    ensures Classify(s.(speakerLabel := previous), agentName, agent) == Classify(s, agentName, agent)
  {
    assert ClassifiedText(s.(speakerLabel := previous)) == ClassifiedText(s);
  }

  /** Labelling labelled segments again with a verdict that ignores labels changes nothing. */
  lemma {:induction false} LabelAllIdempotent(segs: seq<Segment>, verdict: Segment -> string)
    requires forall s: Segment, l: Option<string> :: verdict(s.(speakerLabel := l)) == verdict(s)
    ensures LabelAll(LabelAll(segs, verdict), verdict) == LabelAll(segs, verdict)
  {
    if segs != [] {
      var once := LabelAll(segs, verdict);
      var init, last := segs[..|segs| - 1], segs[|segs| - 1];
      assert once[..|once| - 1] == LabelAll(init, verdict);
      LabelAllIdempotent(init, verdict);
      assert verdict(once[|once| - 1]) == verdict(last);
    }
  }

  /** Two segment lists that differ only in labels choose the same agent speaker. */
  lemma {:induction false} SameAgentSpeaker(a: seq<Segment>, b: seq<Segment>)
    requires |a| == |b|
    requires forall i | 0 <= i < |a| :: b[i] == a[i].(speakerLabel := b[i].speakerLabel)
    ensures SelectAgentSpeaker(a) == SelectAgentSpeaker(b)
  {
    if a != [] {
      assert b[0] == a[0].(speakerLabel := b[0].speakerLabel);
      assert TextOf(a[0]) == TextOf(b[0]);
      SameAgentSpeaker(a[1..], b[1..]);
    }
  }

  /** The labels do not feed back: `label_segments` on its own output returns it unchanged. */
  lemma RelabelIdempotent(segs: seq<Segment>, agentName: string)
    ensures Relabel(Relabel(segs, agentName), agentName) == Relabel(segs, agentName)
  {
    var agent := SelectAgentSpeaker(segs);
    var once := Relabel(segs, agentName);
    var verdict := Verdict(agentName, agent);
    forall i | 0 <= i < |segs| ensures once[i] == segs[i].(speakerLabel := once[i].speakerLabel) {
      LabelAllAt(segs, verdict, i);
    }
    SameAgentSpeaker(segs, once);
    forall s: Segment, l: Option<string> ensures verdict(s.(speakerLabel := l)) == verdict(s) {
      ClassifyIgnoresLabel(s, agentName, agent, l);
    }
    LabelAllIdempotent(segs, verdict);
  }

  /** Every segment of the chosen agent speaker is labelled as the agent unless its own
      text says otherwise; with no agent speaker chosen, so is every segment with a speaker. */
  lemma RelabelAgentSegments(segs: seq<Segment>, agentName: string, i: nat)
    requires i < |segs| && agentName != UserLabel && Truthy(segs[i].speaker)
    requires segs[i].speaker == SelectAgentSpeaker(segs) || SelectAgentSpeaker(segs).None?
    requires !AnyIn(ClassifiedText(segs[i]), UserPhrases)
    requires !(|ClassifiedText(segs[i])| <= 30 && AnyPrefix(ClassifiedText(segs[i]), ShortResponses))
    ensures Relabel(segs, agentName)[i].speakerLabel == Some(agentName)
  {
    LabelAllAt(segs, Verdict(agentName, SelectAgentSpeaker(segs)), i);
  }

  /** The segment that gave the agent away is labelled as the agent. */
  lemma RelabelNamingSegment(segs: seq<Segment>, agentName: string, i: nat)
    requires i < |segs| && NamesAgent(segs[i])
    ensures Relabel(segs, agentName)[i].speakerLabel == Some(agentName)
  {
    LabelAllAt(segs, Verdict(agentName, SelectAgentSpeaker(segs)), i);
    NamingSegmentIsAgent(segs[i], agentName, SelectAgentSpeaker(segs));
  }

  // ------------------------------------------------------------------ WebVTT

  /** A segment the writer keeps: both times present and some text after stripping. */
  predicate Complete(s: Segment) {
    s.start.Some? && s.end.Some? && Strip(TextOf(s)) != []
  }

  /** The name in a cue: the label, else the diarized speaker, else the agent name. */
  function CueName(s: Segment, agentName: string): string {
    if Truthy(s.speakerLabel) then s.speakerLabel.value
    else if Truthy(s.speaker) then s.speaker.value
    else agentName
  }

  /** The text line of a cue. */
  function CueText(s: Segment, agentName: string): string {
    "[" + CueName(s, agentName) + "] " + Strip(TextOf(s))
  }

  /** The three lines of a cue: timing, text, blank. */
  function Cue(s: Segment, agentName: string, ts: real -> string): seq<string>
    requires Complete(s)
  {
    [ts(s.start.value) + " --> " + ts(s.end.value), CueText(s, agentName), ""]
  }

  /** The lines after the header: one cue per complete segment, in order. */
  function CueLines(segs: seq<Segment>, agentName: string, ts: real -> string): seq<string> {
    if segs == [] then []
    else
      var last := segs[|segs| - 1];
      CueLines(segs[..|segs| - 1], agentName, ts) + (if Complete(last) then Cue(last, agentName, ts) else [])
  }

  lemma CueLinesSnoc(segs: seq<Segment>, agentName: string, ts: real -> string, i: nat)
    requires i < |segs|
    ensures CueLines(segs[..i + 1], agentName, ts) ==
      CueLines(segs[..i], agentName, ts) + (if Complete(segs[i]) then Cue(segs[i], agentName, ts) else [])
  {
    assert segs[..i + 1][..i] == segs[..i];
  }

  /** The cue as `build_vtt_content` spells it out. */
  lemma CueSpelled(s: Segment, agentName: string, ts: real -> string)
    requires Complete(s)
    ensures var speaker := if Truthy(s.speakerLabel) then s.speakerLabel else s.speaker;
      var name := if Truthy(speaker) then speaker.value else agentName;
      Cue(s, agentName, ts) == [ts(s.start.value) + " --> " + ts(s.end.value), "[" + name + "] " + Strip(TextOf(s)), ""]
  {
  }

  const Header: seq<string> := ["WEBVTT", ""]

  /** The file `build_vtt_content` returns for the given cue lines. */
  function VttText(lines: seq<string>): string {
    RStrip(Join(Header + lines, "\n")) + "\n"
  }

  /** `build_vtt_content`. */
  method BuildVttContent(segs: seq<Segment>, agentName: string, ts: real -> string) returns (content: string)
    ensures content == VttText(CueLines(segs, agentName, ts))
  {
    var lines := Header;
    var i := 0;
    while i < |segs|
      invariant 0 <= i <= |segs|
      invariant lines == Header + CueLines(segs[..i], agentName, ts)
    {
      var segment := segs[i];
      var text := Strip(TextOf(segment));
      var speaker := if Truthy(segment.speakerLabel) then segment.speakerLabel else segment.speaker;
      HeaderAndCues(segs, agentName, ts, i);
      if segment.start.Some? && segment.end.Some? && text != [] {
        var name := if Truthy(speaker) then speaker.value else agentName;
        CueSpelled(segment, agentName, ts);
        lines := lines + [ts(segment.start.value) + " --> " + ts(segment.end.value), "[" + name + "] " + text, ""];
      }
      i := i + 1;
    }
    assert segs[..i] == segs;
    content := RStrip(Join(lines, "\n")) + "\n";
  }

  /** One more segment adds its cue, if it is complete, after the lines so far. */
  lemma HeaderAndCues(segs: seq<Segment>, agentName: string, ts: real -> string, i: nat)
    requires i < |segs|
    ensures Complete(segs[i]) ==>
      Header + CueLines(segs[..i + 1], agentName, ts) == (Header + CueLines(segs[..i], agentName, ts)) + Cue(segs[i], agentName, ts)
    ensures !Complete(segs[i]) ==>
      Header + CueLines(segs[..i + 1], agentName, ts) == Header + CueLines(segs[..i], agentName, ts)
  {
    CueLinesSnoc(segs, agentName, ts, i);
    if Complete(segs[i]) {
      Associative(Header, CueLines(segs[..i], agentName, ts), Cue(segs[i], agentName, ts));
    } else {
      assert CueLines(segs[..i], agentName, ts) + [] == CueLines(segs[..i], agentName, ts);
    }
  }


  /** The joined lines start with the header line and its blank line. */
  lemma JoinHeader(lines: seq<string>)
    ensures Join(Header + lines, "\n") == "WEBVTT\n" + (if lines == [] then "" else "\n" + Join(lines, "\n"))
  {
    var all := Header + lines;
    assert all[1..] == [""] + lines;
    if lines != [] {
      assert ([""] + lines)[1..] == lines;
    }
  }

  /** The file starts with `WEBVTT` and ends with exactly one line break: the character
      before the final `"\n"` is not white space. */
  lemma VttTextShape(lines: seq<string>)
    ensures var v := VttText(lines);
      && StartsWith(v, "WEBVTT") && |v| >= 7 && v[|v| - 1] == '\n' && !IsSpace(v[|v| - 2])
  {
    var joined := Join(Header + lines, "\n");
    JoinHeader(lines);
    var b := RStripBounds(joined);
    assert joined[..6] == "WEBVTT";
    assert !IsSpace(joined[5]);
    var r := RStrip(joined);
    assert r[..6] == joined[..6];
  }

  /** Without a complete segment the file is just the header line. */
  lemma VttTextEmpty(segs: seq<Segment>, agentName: string, ts: real -> string)
    requires forall i | 0 <= i < |segs| :: !Complete(segs[i])
    ensures VttText(CueLines(segs, agentName, ts)) == "WEBVTT\n"
  {
    NoCues(segs, agentName, ts);
    JoinHeader([]);
    assert Header + [] == Header;
    assert Join(Header, "\n") == "WEBVTT" + "\n";
    RStripPadded("WEBVTT", "\n");
  }

  lemma {:induction false} NoCues(segs: seq<Segment>, agentName: string, ts: real -> string)
    requires forall i | 0 <= i < |segs| :: !Complete(segs[i])
    ensures CueLines(segs, agentName, ts) == []
  {
    if segs != [] {
      NoCues(segs[..|segs| - 1], agentName, ts);
    }
  }

  /** The texts of the cues, in order: what a reader of the file gets back. */
  function CueTexts(segs: seq<Segment>, agentName: string): seq<string> {
    if segs == [] then []
    else
      var last := segs[|segs| - 1];
      CueTexts(segs[..|segs| - 1], agentName) + (if Complete(last) then [CueText(last, agentName)] else [])
  }
}
