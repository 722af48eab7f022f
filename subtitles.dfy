/** The caption lookup of the conversation page: the text of the first cue
    whose half-open interval `[start, end)` holds the current playback time,
    or the empty text when none does. */
module Subtitles {
  import opened Wrappers

  /** One caption: shown from `start` (inclusive) to `end` (exclusive), in seconds. */
  datatype Cue = Cue(start: real, end: real, text: string)

  predicate Covers(cue: Cue, t: real) {
    cue.start <= t < cue.end
  }

  /** The cue table bundled with the page. */
  const SampleCues: seq<Cue> := [
    Cue(0.0, 5.0, "Welcome to our podcast about React development."),
    Cue(5.0, 10.0, "Today, we're discussing the latest features in React 18."),
    Cue(10.0, 15.0, "Let's start by talking about the new concurrent rendering capabilities.")
  ]

  /** `cues.find(...)` as an index: the first cue covering `t`, if any. */
  function FindCue(cues: seq<Cue>, t: real): (r: Option<nat>)
    ensures r.Some? ==> r.value < |cues| && Covers(cues[r.value], t)
    ensures r.Some? ==> forall j :: 0 <= j < r.value ==> !Covers(cues[j], t)
    ensures r.None? ==> forall j :: 0 <= j < |cues| ==> !Covers(cues[j], t)
  {
    if |cues| == 0 then None
    else if Covers(cues[0], t) then Some(0)
    else match FindCue(cues[1..], t)
      case Some(i) => Some(i + 1)
      case None => None
  }

  /** The caption shown at time `t`: the first covering cue's text, otherwise
      the empty text (the previous caption is not kept). */
  function SubtitleAt(cues: seq<Cue>, t: real): (text: string)
    ensures forall i :: (0 <= i < |cues| && Covers(cues[i], t)
      && forall j :: 0 <= j < i ==> !Covers(cues[j], t)) ==> text == cues[i].text
    ensures (forall j :: 0 <= j < |cues| ==> !Covers(cues[j], t)) ==> text == ""
  {
    match FindCue(cues, t)
    case Some(i) => cues[i].text
    case None => ""
  }

  /** Every cue starts before it ends. */
  predicate WellFormed(cues: seq<Cue>) {
    forall i :: 0 <= i < |cues| ==> cues[i].start < cues[i].end
  }

  /** Each cue starts exactly where the previous one ends. */
  predicate Contiguous(cues: seq<Cue>) {
    forall i :: 0 <= i < |cues| - 1 ==> cues[i].end == cues[i + 1].start
  }

  /** In a contiguous track a cue ends no later than any later cue starts. */
  lemma {:induction false} ContiguousOrdered(cues: seq<Cue>, i: nat, j: nat)
    requires WellFormed(cues) && Contiguous(cues)
    requires i < j < |cues|
    ensures cues[i].end <= cues[j].start
    decreases j - i
  {
    if i + 1 < j {
      ContiguousOrdered(cues, i + 1, j);
    }
  }

  /** A contiguous track covers every time from its first start to its last end. */
  lemma {:induction false} ContiguousCovers(cues: seq<Cue>, t: real)
    requires |cues| > 0 && WellFormed(cues) && Contiguous(cues)
    requires cues[0].start <= t < cues[|cues| - 1].end
    ensures exists i :: 0 <= i < |cues| && Covers(cues[i], t)
  {
    if !Covers(cues[0], t) {
      assert |cues| > 1;
      assert cues[1..][0].start == cues[0].end <= t;
      ContiguousCovers(cues[1..], t);
      var k :| 0 <= k < |cues[1..]| && Covers(cues[1..][k], t);
      assert Covers(cues[k + 1], t);
    }
  }

  /** In a well-formed contiguous track each time in `[first start, last end)`
      lies in exactly one cue, whose text is the caption; any other time has
      the empty caption. */
  lemma TrackLookup(cues: seq<Cue>, t: real)
    requires |cues| > 0 && WellFormed(cues) && Contiguous(cues)
    ensures cues[0].start <= t < cues[|cues| - 1].end ==>
      exists i :: 0 <= i < |cues| && Covers(cues[i], t) && SubtitleAt(cues, t) == cues[i].text
        && forall j :: 0 <= j < |cues| && Covers(cues[j], t) ==> j == i
    ensures !(cues[0].start <= t < cues[|cues| - 1].end) ==> SubtitleAt(cues, t) == ""
  {
    var last := |cues| - 1;
    forall i, j | 0 <= i < j < |cues|
      ensures cues[i].end <= cues[j].start
    {
      ContiguousOrdered(cues, i, j);
    }
    if cues[0].start <= t < cues[last].end {
      ContiguousCovers(cues, t);
      var i :| 0 <= i < |cues| && Covers(cues[i], t);
      assert forall j :: 0 <= j < |cues| && Covers(cues[j], t) ==> j == i;
    } else {
      forall j | 0 <= j < |cues|
        ensures !Covers(cues[j], t)
      {
        if 0 < j {
          assert cues[0].start < cues[0].end <= cues[j].start;
        }
        if j < last {
          assert cues[j].end <= cues[last].start < cues[last].end;
        }
      }
    }
  }

  /** The bundled table is ordered and gap-free: each time in `[0, 15)` shows
      exactly one caption, and any time from 15 on (or before 0) shows none. */
  lemma SampleCuesLookup(t: real)
    ensures WellFormed(SampleCues) && Contiguous(SampleCues)
    ensures 0.0 <= t < 15.0 ==>
      exists i :: 0 <= i < |SampleCues| && Covers(SampleCues[i], t) && SubtitleAt(SampleCues, t) == SampleCues[i].text
        && forall j :: 0 <= j < |SampleCues| && Covers(SampleCues[j], t) ==> j == i
    ensures (t < 0.0 || t >= 15.0) ==> SubtitleAt(SampleCues, t) == ""
  {
    TrackLookup(SampleCues, t);
  }
}
