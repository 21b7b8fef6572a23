/** Finding the runs of model tokens in a trajectory and cropping it at the end of one of them. */
module AssistantSpans {
  import opened Sequences

  /** The half-open range of a run of model tokens. */
  datatype Span = Span(start: nat, end: nat)

  datatype Extra = Flag(b: bool) | Number(n: int) | Text(s: string)

  /** `routes` are the routed experts, one entry per input token as far as they were recorded. */
  datatype Trajectory = Trajectory(
    promptIds: seq<int>, responseIds: seq<int>, mask: seq<int>, logprobs: Option<seq<real>>,
    routes: Option<seq<seq<int>>>, numTurns: nat, reward: Option<real>, extra: map<string, Extra>)

  datatype Error = Misaligned | NotABoundary | BadSelection

  predicate Aligned(t: Trajectory) {
    |t.mask| == |t.responseIds| && (t.logprobs.Some? ==> |t.logprobs.value| == |t.responseIds|)
  }

  // ----- spans -----

  /** The spans closed so far and the start of the one that is open. */
  datatype Scan = Scan(spans: seq<Span>, start: Option<nat>)

  function Close(scan: Scan, end: nat): seq<Span> {
    if scan.start.Some? then scan.spans + [Span(scan.start.value, end)] else scan.spans
  }

  function Scanned(mask: seq<int>): Scan {
    if mask == [] then Scan([], None)
    else
      var i := |mask| - 1;
      var before := Scanned(mask[..i]);
      if mask[i] != 0 && before.start.None? then before.(start := Some(i))
      else if mask[i] == 0 then Scan(Close(before, i), None)
      else before
  }

  function Spans(mask: seq<int>): seq<Span> {
    Close(Scanned(mask), |mask|)
  }

  method FindSpans(t: Trajectory) returns (result: Result<seq<Span>, Error>)
    ensures result == if Aligned(t) then Ok(Spans(t.mask)) else Err(Misaligned)
  {
    if !Aligned(t) {
      return Err(Misaligned);
    }
    var spans: seq<Span> := [];
    var start: Option<nat> := None;
    for i := 0 to |t.mask|
      invariant Scanned(t.mask[..i]) == Scan(spans, start)
    {
      assert t.mask[..i + 1][..i] == t.mask[..i];
      var active := t.mask[i] != 0;
      if active && start.None? {
        start := Some(i);
      } else if !active && start.Some? {
        spans := spans + [Span(start.value, i)];
        start := None;
      }
    }
    assert t.mask[..|t.mask|] == t.mask;
    if start.Some? {
      spans := spans + [Span(start.value, |t.responseIds|)];
    }
    return Ok(spans);
  }

  /** A non-empty run of model tokens that cannot be extended on either side. */
  ghost predicate MaximalRun(mask: seq<int>, span: Span) {
    && span.start < span.end <= |mask|
    && (forall i :: span.start <= i < span.end ==> mask[i] != 0)
    && (span.start == 0 || mask[span.start - 1] == 0)
    && (span.end == |mask| || mask[span.end] == 0)
  }

  ghost predicate Covered(spans: seq<Span>, i: nat) {
    exists k :: 0 <= k < |spans| && spans[k].start <= i < spans[k].end
  }

  /** In order, with at least one other token between neighbours. */
  ghost predicate Separated(spans: seq<Span>) {
    (forall k :: 0 <= k < |spans| ==> spans[k].start < spans[k].end) &&
    (forall j, k :: 0 <= j < k < |spans| ==> spans[j].end < spans[k].start)
  }

  ghost predicate OpenRun(mask: seq<int>, start: Option<nat>) {
    if start.None? then mask == [] || mask[|mask| - 1] == 0
    else
      && start.value < |mask|
      && (forall i :: start.value <= i < |mask| ==> mask[i] != 0)
      && (start.value == 0 || mask[start.value - 1] == 0)
  }

  ghost predicate ScanInv(mask: seq<int>, scan: Scan) {
    && OpenRun(mask, scan.start) && Separated(scan.spans)
    && (forall k :: 0 <= k < |scan.spans| ==> MaximalRun(mask, scan.spans[k]) && scan.spans[k].end < |mask|)
    && (forall k :: 0 <= k < |scan.spans| && scan.start.Some? ==> scan.spans[k].end < scan.start.value)
    && (forall i :: 0 <= i < |mask| && mask[i] != 0 && (scan.start.None? || i < scan.start.value) ==>
          Covered(scan.spans, i))
  }

  lemma RunExtends(mask: seq<int>, x: int, span: Span)
    requires MaximalRun(mask, span) && span.end < |mask|
    ensures MaximalRun(mask + [x], span)
  {
  }

  lemma CoveredMore(spans: seq<Span>, span: Span, i: nat)
    ensures Covered(spans, i) ==> Covered(spans + [span], i)
    ensures span.start <= i < span.end ==> Covered(spans + [span], i)
  {
    var more := spans + [span];
    if Covered(spans, i) {
      var k :| 0 <= k < |spans| && spans[k].start <= i < spans[k].end;
      assert more[k] == spans[k];
    }
    assert more[|spans|] == span;
  }

  lemma ClosingKeepsInv(mask: seq<int>, scan: Scan)
    requires ScanInv(mask, scan)
    ensures ScanInv(mask + [0], Scan(Close(scan, |mask|), None))
  {
    var spans := Close(scan, |mask|);
    forall k | 0 <= k < |scan.spans| ensures MaximalRun(mask + [0], scan.spans[k]) {
      RunExtends(mask, 0, scan.spans[k]);
    }
    forall i | 0 <= i < |mask| && mask[i] != 0 ensures Covered(spans, i) {
      if scan.start.Some? {
        CoveredMore(scan.spans, Span(scan.start.value, |mask|), i);
      }
    }
  }

  lemma ModelTokenKeepsInv(mask: seq<int>, scan: Scan, x: int)
    requires ScanInv(mask, scan) && x != 0
    ensures ScanInv(mask + [x], if scan.start.None? then scan.(start := Some(|mask|)) else scan)
  {
    forall k | 0 <= k < |scan.spans| ensures MaximalRun(mask + [x], scan.spans[k]) {
      RunExtends(mask, x, scan.spans[k]);
    }
  }

  lemma {:induction false} ScannedInv(mask: seq<int>)
    ensures ScanInv(mask, Scanned(mask))
  {
    if mask != [] {
      var n := |mask| - 1;
      ScannedInv(mask[..n]);
      assert mask == mask[..n] + [mask[n]];
      if mask[n] == 0 {
        ClosingKeepsInv(mask[..n], Scanned(mask[..n]));
      } else {
        ModelTokenKeepsInv(mask[..n], Scanned(mask[..n]), mask[n]);
      }
    }
  }

  /** The result is exactly the list of the maximal runs, in order. */
  lemma SpansAreMaximalRuns(mask: seq<int>)
    ensures Separated(Spans(mask))
    ensures forall k :: 0 <= k < |Spans(mask)| ==> MaximalRun(mask, Spans(mask)[k])
    ensures forall i :: 0 <= i < |mask| && mask[i] != 0 ==> Covered(Spans(mask), i)
  {
    ScannedInv(mask);
    var scan, spans := Scanned(mask), Spans(mask);
    forall i | 0 <= i < |mask| && mask[i] != 0 ensures Covered(spans, i) {
      if scan.start.Some? {
        CoveredMore(scan.spans, Span(scan.start.value, |mask|), i);
      }
    }
  }

  lemma EveryMaximalRunIsFound(mask: seq<int>, span: Span)
    requires MaximalRun(mask, span)
    ensures span in Spans(mask)
  {
    SpansAreMaximalRuns(mask);
    var spans := Spans(mask);
    assert Covered(spans, span.start);
    var k :| 0 <= k < |spans| && spans[k].start <= span.start < spans[k].end;
    RunsAgree(mask, spans[k], span);
  }

  /** Two maximal runs that share a token are the same. */
  lemma RunsAgree(mask: seq<int>, a: Span, b: Span)
    requires MaximalRun(mask, a) && MaximalRun(mask, b) && a.start <= b.start < a.end
    ensures a == b
  {
    assert b.start == 0 || mask[b.start - 1] == 0;
    assert a.start == b.start;
    assert a.end == |mask| || mask[a.end] == 0;
    assert b.end == |mask| || mask[b.end] == 0;
  }

  // ----- cropping -----

  const STALE: set<string> := {"materialization_reason", "min_global_steps", "max_global_steps"}

  function Ends(spans: seq<Span>): set<nat> {
    set k | 0 <= k < |spans| :: spans[k].end
  }

  function CountUpTo(spans: seq<Span>, end: nat): nat {
    if spans == [] then 0 else (if spans[0].end <= end then 1 else 0) + CountUpTo(spans[1..], end)
  }

  function Take<T>(s: seq<T>, n: nat): seq<T> {
    if n <= |s| then s[..n] else s
  }

  function Cropped(t: Trajectory, end: nat, reason: string): Trajectory
    requires Aligned(t) && end <= |t.responseIds|
  {
    var kept := CountUpTo(Spans(t.mask), end);
    var extra := if end < |t.responseIds| then t.extra - STALE else t.extra;
    t.(responseIds := t.responseIds[..end], mask := t.mask[..end],
       logprobs := if t.logprobs.None? then None else Some(t.logprobs.value[..end]),
       routes := if t.routes.None? then None else Some(Take(t.routes.value, |t.promptIds| + end)),
       numTurns := 2 * kept + 1,
       extra := extra["trajectory_postprocessed" := Flag(true)]["trajectory_postprocess_reason" := Text(reason)]
                     ["original_response_length" := Number(|t.responseIds|)]["assistant_spans_kept" := Number(kept)]
                     ["postprocess_num_turns_recomputed" := Flag(true)])
  }

  function Crop(t: Trajectory, end: nat, reason: string): Result<Trajectory, Error> {
    if !Aligned(t) then Err(Misaligned)
    else
      (SpansAreMaximalRuns(t.mask);
       if end !in Ends(Spans(t.mask)) then Err(NotABoundary) else Ok(Cropped(t, end, reason)))
  }

  lemma {:induction false} CountPrefix(spans: seq<Span>, k: nat)
    requires Separated(spans) && k < |spans|
    ensures CountUpTo(spans, spans[k].end) == k + 1
  {
    if k == 0 {
      CountNone(spans[1..], spans[0].end);
    } else {
      assert forall j :: 0 <= j < |spans[1..]| ==> spans[1..][j] == spans[j + 1];
      CountPrefix(spans[1..], k - 1);
    }
  }

  lemma {:induction false} CountNone(spans: seq<Span>, end: nat)
    requires forall k :: 0 <= k < |spans| ==> end < spans[k].end
    ensures CountUpTo(spans, end) == 0
  {
    if spans != [] {
      CountNone(spans[1..], end);
    }
  }

  /** Spans closed within a prefix of the mask are the first spans of the whole. */
  lemma {:induction false} ScanGrows(mask: seq<int>, n: nat)
    requires n <= |mask|
    ensures Scanned(mask[..n]).spans <= Scanned(mask).spans
  {
    if n < |mask| {
      var shorter := mask[..|mask| - 1];
      assert shorter[..n] == mask[..n];
      ScanGrows(shorter, n);
    } else {
      assert mask[..n] == mask;
    }
  }

  /** The spans of a prefix that ends with a run are the first spans of the whole. */
  lemma SpansOfPrefixGrow(mask: seq<int>, end: nat)
    requires 0 < end <= |mask| && mask[end - 1] != 0 && (end == |mask| || mask[end] == 0)
    ensures Spans(mask[..end]) <= Spans(mask)
    ensures Spans(mask[..end]) != [] && Spans(mask[..end])[|Spans(mask[..end])| - 1].end == end
  {
    var prefix := mask[..end];
    ScannedInv(prefix);
    assert Scanned(prefix).start.Some?;
    if end < |mask| {
      var longer := mask[..end + 1];
      assert longer[..end] == prefix && longer[end] == 0;
      assert Scanned(longer).spans == Spans(prefix);
      ScanGrows(mask, end + 1);
    } else {
      assert prefix == mask;
    }
  }

  /** Cropping the mask at the k-th boundary leaves exactly the first spans, up to the k-th. */
  lemma SpansOfPrefix(mask: seq<int>, k: nat)
    requires k < |Spans(mask)|
    ensures Spans(mask)[k].end <= |mask|
    ensures Spans(mask[..Spans(mask)[k].end]) == Spans(mask)[..k + 1]
  {
    SpansAreMaximalRuns(mask);
    var spans, end := Spans(mask), Spans(mask)[k].end;
    assert MaximalRun(mask, spans[k]);
    SpansOfPrefixGrow(mask, end);
    LastEndFixesCount(spans, Spans(mask[..end]), k);
  }

  lemma LastEndFixesCount(spans: seq<Span>, part: seq<Span>, k: nat)
    requires Separated(spans) && part <= spans && part != [] && k < |spans|
    requires part[|part| - 1].end == spans[k].end
    ensures part == spans[..k + 1]
  {
    var m := |part| - 1;
    assert spans[m].end == spans[k].end;
    EndsIncrease(spans);
  }

  lemma EndsIncrease(spans: seq<Span>)
    requires Separated(spans)
    ensures forall i, j :: 0 <= i < j < |spans| ==> spans[i].end < spans[j].end
  {
    forall i, j | 0 <= i < j < |spans| ensures spans[i].end < spans[j].end {
      assert spans[i].end < spans[j].start;
    }
  }

  /** Cropping at the k-th boundary keeps the first spans, their tokens and the reward. */
  lemma CropKeepsFirstSpans(t: Trajectory, k: nat, reason: string)
    requires Aligned(t) && k < |Spans(t.mask)|
    ensures var end := Spans(t.mask)[k].end;
            && end <= |t.responseIds| && Crop(t, end, reason).Ok?
            && var c := Crop(t, end, reason).value;
               && Aligned(c) && Spans(c.mask) == Spans(t.mask)[..k + 1] && c.numTurns == 2 * (k + 1) + 1
               && c.responseIds == t.responseIds[..end] && c.reward == t.reward && c.promptIds == t.promptIds
  {
    SpansAreMaximalRuns(t.mask);
    SpansOfPrefix(t.mask, k);
    CountPrefix(Spans(t.mask), k);
    assert Spans(t.mask)[k].end in Ends(Spans(t.mask));
  }

  /** The entries that a crop writes into the extra fields. */
  const RECORDED: set<string> := {"trajectory_postprocessed", "trajectory_postprocess_reason",
    "original_response_length", "assistant_spans_kept", "postprocess_num_turns_recomputed"}

  /** It records why and how much it kept, cuts the log probabilities with the tokens, and drops the
      entries that are stale for a shorter response, but only if the response is shorter. */
  lemma CropRecords(t: Trajectory, k: nat, reason: string)
    requires Aligned(t) && k < |Spans(t.mask)|
    ensures var end := Spans(t.mask)[k].end;
            && end <= |t.responseIds| && Crop(t, end, reason).Ok?
            && var c := Crop(t, end, reason).value;
               && c.logprobs == (if t.logprobs.None? then None else Some(t.logprobs.value[..end]))
               && c.extra.Keys == (if end < |t.responseIds| then t.extra.Keys - STALE else t.extra.Keys) + RECORDED
               && (forall key :: key in c.extra && key !in RECORDED ==> c.extra[key] == t.extra[key])
               && c.extra["trajectory_postprocess_reason"] == Text(reason)
               && c.extra["original_response_length"] == Number(|t.responseIds|)
               && c.extra["assistant_spans_kept"] == Number(k + 1)
               && c.extra["trajectory_postprocessed"] == c.extra["postprocess_num_turns_recomputed"] == Flag(true)
  {
    CropKeepsFirstSpans(t, k, reason);
    SpansAreMaximalRuns(t.mask);
    CountPrefix(Spans(t.mask), k);
  }

  /** Cropping at the last boundary keeps every trainable token ... */
  lemma FinalCropKeepsTrainable(t: Trajectory, reason: string)
    requires Aligned(t) && Spans(t.mask) != []
    ensures var end := Spans(t.mask)[|Spans(t.mask)| - 1].end;
            && end <= |t.mask| && (forall i :: end <= i < |t.mask| ==> t.mask[i] == 0)
            && Crop(t, end, reason).Ok? && Spans(Crop(t, end, reason).value.mask) == Spans(t.mask)
  {
    var spans := Spans(t.mask);
    var last := |spans| - 1;
    SpansAreMaximalRuns(t.mask);
    CropKeepsFirstSpans(t, last, reason);
    assert spans[..last + 1] == spans;
    forall i | spans[last].end <= i < |t.mask| ensures t.mask[i] == 0 {
      NotCoveredBehind(spans, i);
    }
  }

  lemma NotCoveredBehind(spans: seq<Span>, i: nat)
    requires Separated(spans) && spans != [] && spans[|spans| - 1].end <= i
    ensures !Covered(spans, i)
  {
    var last := |spans| - 1;
    assert forall k :: 0 <= k < last ==> spans[k].end < spans[last].start;
  }

  /** ... and cropping there again changes no token. */
  lemma FinalCropIsIdempotent(t: Trajectory, reason: string)
    requires Aligned(t) && Spans(t.mask) != []
    ensures var end := Spans(t.mask)[|Spans(t.mask)| - 1].end;
            && Crop(t, end, reason).Ok?
            && var c := Crop(t, end, reason).value;
               && Crop(c, end, reason).Ok?
               && var again := Crop(c, end, reason).value;
                  again.responseIds == c.responseIds && again.mask == c.mask && again.logprobs == c.logprobs &&
                  again.routes == c.routes && again.numTurns == c.numTurns
  {
    var last := |Spans(t.mask)| - 1;
    FinalCropKeepsTrainable(t, reason);
    CropKeepsFirstSpans(t, last, reason);
    var end := Spans(t.mask)[last].end;
    var c := Crop(t, end, reason).value;
    CropKeepsFirstSpans(c, last, reason);
    assert c.responseIds[..end] == c.responseIds && c.mask[..end] == c.mask;
    assert c.logprobs.Some? ==> c.logprobs.value[..end] == c.logprobs.value;
    assert c.routes.Some? ==> Take(c.routes.value, |c.promptIds| + end) == c.routes.value;
  }

  // ----- routed experts -----

  /** One route per input token: the recorded ones, then zero routes. */
  function Align(routes: seq<seq<int>>, length: nat, zero: seq<int>): seq<seq<int>> {
    seq(length, i requires 0 <= i < length => if i < |routes| then routes[i] else zero)
  }

  /** Cropping first and aligning afterwards gives the prefix of aligning the whole. */
  lemma CropThenAlign(t: Trajectory, end: nat, reason: string, zero: seq<int>)
    requires Crop(t, end, reason).Ok? && t.routes.Some?
    ensures Crop(t, end, reason).value.routes.Some?
    ensures var n := |t.promptIds| + end;
            end <= |t.responseIds| &&
            var aligned := Align(Crop(t, end, reason).value.routes.value, n, zero);
            && aligned == Align(t.routes.value, |t.promptIds| + |t.responseIds|, zero)[..n]
            && forall i :: 0 <= i < n ==> aligned[i] == if i < |t.routes.value| then t.routes.value[i] else zero
  {
    SpansAreMaximalRuns(t.mask);
  }

  // ----- choosing trajectories -----

  datatype Selection = Best | AllFinal | Final

  /** The crop of one trajectory at its last boundary, if it has any model token. */
  function FinalCrop(t: Trajectory, reason: string): seq<Trajectory> {
    if !Aligned(t) || Spans(t.mask) == [] then []
    else
      var crop := Crop(t, Spans(t.mask)[|Spans(t.mask)| - 1].end, reason);
      if crop.Ok? then [crop.value] else []
  }

  function FinalCrops(ts: seq<Trajectory>, reason: string): seq<Trajectory> {
    if ts == [] then []
    else FinalCrops(ts[..|ts| - 1], reason) + FinalCrop(ts[|ts| - 1], reason)
  }

  /** `best` is the hinted assistant index, or none without a usable hint. */
  function Processed(ts: seq<Trajectory>, best: Option<int>, selection: Selection): seq<Trajectory> {
    if ts == [] then []
    else if selection.Best? && |ts| == 1 && best.Some? && 0 <= best.value < |Spans(ts[0].mask)|
            && Crop(ts[0], Spans(ts[0].mask)[best.value].end, "best_assistant").Ok? then
      [Crop(ts[0], Spans(ts[0].mask)[best.value].end, "best_assistant").value]
    else if selection.Final? then FinalCrops(ts[|ts| - 1..], "final")
    else FinalCrops(ts, "all_final")
  }

  /** A processed trajectory is a prefix of one of the inputs, with its reward unchanged, and ends
      with a model token. */
  ghost predicate CropOf(r: Trajectory, t: Trajectory) {
    && r.promptIds == t.promptIds && r.reward == t.reward && |r.mask| == |r.responseIds| > 0
    && r.responseIds <= t.responseIds && r.mask <= t.mask && r.mask[|r.mask| - 1] != 0
  }

  lemma CroppedIsCropOf(t: Trajectory, k: nat, reason: string)
    requires Aligned(t) && k < |Spans(t.mask)|
    ensures Crop(t, Spans(t.mask)[k].end, reason).Ok?
    ensures CropOf(Crop(t, Spans(t.mask)[k].end, reason).value, t)
  {
    CropKeepsFirstSpans(t, k, reason);
    SpansAreMaximalRuns(t.mask);
    assert MaximalRun(t.mask, Spans(t.mask)[k]);
  }

  lemma {:induction false} FinalCropsAreCrops(ts: seq<Trajectory>, reason: string, r: Trajectory) returns (i: nat)
    requires (forall j :: 0 <= j < |ts| ==> Aligned(ts[j])) && r in FinalCrops(ts, reason)
    ensures i < |ts| && CropOf(r, ts[i])
  {
    i := |ts| - 1;
    if r in FinalCrops(ts[..i], reason) {
      i := FinalCropsAreCrops(ts[..i], reason, r);
    } else {
      CroppedIsCropOf(ts[i], |Spans(ts[i].mask)| - 1, reason);
    }
  }

  lemma ProcessedAreCrops(ts: seq<Trajectory>, best: Option<int>, selection: Selection, r: Trajectory) returns (i: nat)
    requires (forall j :: 0 <= j < |ts| ==> Aligned(ts[j])) && r in Processed(ts, best, selection)
    ensures i < |ts| && CropOf(r, ts[i])
  {
    if r in FinalCrops(ts[|ts| - 1..], "final") {
      i := FinalCropsAreCrops(ts[|ts| - 1..], "final", r);
      i := |ts| - 1;
    } else if r in FinalCrops(ts, "all_final") {
      i := FinalCropsAreCrops(ts, "all_final", r);
    } else {
      i := 0;
      CroppedIsCropOf(ts[0], best.value, "best_assistant");
    }
  }

  // ----- which crops are chosen -----

  ghost predicate HasModelToken(t: Trajectory) {
    exists i :: 0 <= i < |t.mask| && t.mask[i] != 0
  }

  /** The trajectories with a model token, in order. */
  ghost function Trainable(ts: seq<Trajectory>): seq<Trajectory> {
    if ts == [] then []
    else
      var last := |ts| - 1;
      Trainable(ts[..last]) + if HasModelToken(ts[last]) then [ts[last]] else []
  }

  /** `r` is `t` up to and including its last model token. */
  ghost predicate UpToLast(r: Trajectory, t: Trajectory) {
    && |r.mask| <= |t.mask| && |r.mask| <= |t.responseIds|
    && r.promptIds == t.promptIds && r.reward == t.reward
    && r.mask == t.mask[..|r.mask|] && r.responseIds == t.responseIds[..|r.mask|]
    && r.mask != [] && r.mask[|r.mask| - 1] != 0
    && forall i :: |r.mask| <= i < |t.mask| ==> t.mask[i] == 0
  }

  ghost predicate EachUpToLast(rs: seq<Trajectory>, ts: seq<Trajectory>) {
    |rs| == |Trainable(ts)| && forall i :: 0 <= i < |rs| ==> UpToLast(rs[i], Trainable(ts)[i])
  }

  lemma FinalCropIsUpToLast(t: Trajectory, reason: string)
    requires Aligned(t)
    ensures if HasModelToken(t) then |FinalCrop(t, reason)| == 1 && UpToLast(FinalCrop(t, reason)[0], t)
            else FinalCrop(t, reason) == []
  {
    var spans := Spans(t.mask);
    SpansAreMaximalRuns(t.mask);
    if spans == [] {
      assert !HasModelToken(t) by {
        forall i | 0 <= i < |t.mask| ensures t.mask[i] == 0 {
          assert !Covered(spans, i);
        }
      }
    } else {
      var last := |spans| - 1;
      assert MaximalRun(t.mask, spans[last]) && t.mask[spans[last].start] != 0;
      FinalCropKeepsTrainable(t, reason);
      CropKeepsFirstSpans(t, last, reason);
      CroppedIsCropOf(t, last, reason);
    }
  }

  lemma {:induction false} FinalCropsAreUpToLast(ts: seq<Trajectory>, reason: string)
    requires forall i :: 0 <= i < |ts| ==> Aligned(ts[i])
    ensures EachUpToLast(FinalCrops(ts, reason), ts)
  {
    hide FinalCrop, UpToLast, EachUpToLast, HasModelToken, Aligned;
    if ts == [] {
      NoneUpToLast();
    } else {
      var last := |ts| - 1;
      FinalCropsAreUpToLast(ts[..last], reason);
      FinalCropIsUpToLast(ts[last], reason);
      OneMoreUpToLast(FinalCrops(ts[..last], reason), FinalCrop(ts[last], reason), ts);
    }
  }

  lemma NoneUpToLast()
    ensures EachUpToLast([], [])
  {
  }

  lemma OneMoreUpToLast(rs: seq<Trajectory>, more: seq<Trajectory>, ts: seq<Trajectory>)
    requires ts != [] && EachUpToLast(rs, ts[..|ts| - 1])
    requires if HasModelToken(ts[|ts| - 1]) then |more| == 1 && UpToLast(more[0], ts[|ts| - 1]) else more == []
    ensures EachUpToLast(rs + more, ts)
  {
    hide UpToLast, HasModelToken;
  }

  /** What each selection gives: `Final` the last trajectory up to its last model token, if it has one;
      `Best` with a usable hint the only trajectory up to the end of the hinted run; all else every
      trajectory with a model token, in order, up to its last one. */
  lemma SelectionTakes(ts: seq<Trajectory>, best: Option<int>, selection: Selection)
    requires ts != [] && forall i :: 0 <= i < |ts| ==> Aligned(ts[i])
    ensures var chosen := Processed(ts, best, selection);
            if selection.Best? && |ts| == 1 && best.Some? && 0 <= best.value < |Spans(ts[0].mask)| then
              && |chosen| == 1 && Spans(chosen[0].mask) == Spans(ts[0].mask)[..best.value + 1]
              && Spans(ts[0].mask)[best.value].end <= |ts[0].responseIds|
              && chosen[0].responseIds == ts[0].responseIds[..Spans(ts[0].mask)[best.value].end]
              && chosen[0].reward == ts[0].reward
            else EachUpToLast(chosen, if selection.Final? then [ts[|ts| - 1]] else ts)
  {
    FinalCropsAreUpToLast(ts[|ts| - 1..], "final");
    FinalCropsAreUpToLast(ts, "all_final");
    assert ts[|ts| - 1..] == [ts[|ts| - 1]];
    hide EachUpToLast, FinalCrops;
    if |ts| == 1 && best.Some? && 0 <= best.value < |Spans(ts[0].mask)| {
      CropKeepsFirstSpans(ts[0], best.value, "best_assistant");
    }
  }

  method CropToAssistantPrefix(t: Trajectory, end: nat, reason: string) returns (result: Result<Trajectory, Error>)
    ensures result == Crop(t, end, reason)
  {
    var spans := FindSpans(t);
    if spans.Err? {
      return Err(spans.error);
    }
    SpansAreMaximalRuns(t.mask);
    if end !in Ends(spans.value) {
      return Err(NotABoundary);
    }
    return Ok(Cropped(t, end, reason));
  }

  method ProcessTrajectories(ts: seq<Trajectory>, best: Option<int>, selection: Selection)
      returns (result: Result<seq<Trajectory>, Error>)
    ensures result == if forall i :: 0 <= i < |ts| ==> Aligned(ts[i]) then Ok(Processed(ts, best, selection))
                      else Err(Misaligned)
  {
    if ts == [] {
      return Ok([]);
    }
    for i := 0 to |ts|
      invariant forall j :: 0 <= j < i ==> Aligned(ts[j])
    {
      if !Aligned(ts[i]) {
        return Err(Misaligned);
      }
    }
    if selection.Best? && |ts| == 1 && best.Some? {
      var spans := FindSpans(ts[0]);
      if 0 <= best.value < |spans.value| {
        CropKeepsFirstSpans(ts[0], best.value, "best_assistant");
        var crop := CropToAssistantPrefix(ts[0], spans.value[best.value].end, "best_assistant");
        return Ok([crop.value]);
      }
    }
    if selection.Final? {
      result := CropFinals(ts[|ts| - 1..], "final");
    } else {
      result := CropFinals(ts, "all_final");
    }
  }

  method CropFinals(candidates: seq<Trajectory>, reason: string) returns (result: Result<seq<Trajectory>, Error>)
    requires forall i :: 0 <= i < |candidates| ==> Aligned(candidates[i])
    ensures result == Ok(FinalCrops(candidates, reason))
  {
    var kept: seq<Trajectory> := [];
    for i := 0 to |candidates|
      invariant kept == FinalCrops(candidates[..i], reason)
    {
      assert candidates[..i + 1][..i] == candidates[..i];
      var spans := FindSpans(candidates[i]);
      if spans.value != [] {
        CropKeepsFirstSpans(candidates[i], |spans.value| - 1, reason);
        var crop := CropToAssistantPrefix(candidates[i], spans.value[|spans.value| - 1].end, reason);
        kept := kept + [crop.value];
      }
    }
    assert candidates[..|candidates|] == candidates;
    return Ok(kept);
  }
}
