/** What the planner may replace, and why its edits always apply. */
module Candidacy {
  import opened Texts
  import opened Messages
  import opened Substitution
  import opened Contract
  import opened Packing
  import opened Leaves

  datatype Skeleton = Skeleton(text: Text, kind: MemoryKind, safe: bool)

  /**
   * The planner's heuristics seen from outside: where a text holds reference material, how a tool result
   * is summarized, which outputs already carry a node marker, and how observations are keyed.
   */
  datatype Heuristics = Heuristics(
    ranges: Text -> seq<Span>, skeleton: Part -> Skeleton, marked: Text -> bool, key: (Part, Text) -> Digest)

  /** Material ranges come sorted, disjoint, non-empty and inside their text. */
  ghost predicate RangesSound(hs: Heuristics) {
    forall text: Text ::
      && (forall i :: 0 <= i < |hs.ranges(text)| ==> hs.ranges(text)[i].start < hs.ranges(text)[i].end <= |text|)
      && (forall i, j :: 0 <= i < j < |hs.ranges(text)| ==> hs.ranges(text)[i].end <= hs.ranges(text)[j].start)
  }

  const REFERENCE := Ascii("Explicit reference material; expand source for original content.")

  /** The planner's surroundings: hashing, token counting and heuristics. */
  datatype Setting = Setting(h: Hashing, count: Counter, hs: Heuristics)

  function Slice(text: Text, span: Span): Text {
    if span.start <= span.end <= |text| then text[span.start..span.end] else []
  }

  function ObserveRange(w: Setting, part: Part, p: nat, span: Span): Observation
    requires part.TextPart?
  {
    var material := Slice(part.text, span);
    Observation(p, Some(span), w.h.text(material), w.count(material), REFERENCE, Decisions, w.hs.key(part, material))
  }

  function ObserveRanges(w: Setting, part: Part, p: nat, spans: seq<Span>): seq<Observation>
    requires part.TextPart?
  {
    seq(|spans|, i requires 0 <= i < |spans| => ObserveRange(w, part, p, spans[i]))
  }

  /** The observations of one part. */
  function ObservePart(w: Setting, part: Part, p: nat): seq<Observation> {
    if part.TextPart? then ObserveRanges(w, part, p, w.hs.ranges(part.text))
    else if !PartSettled(part) || OutputOf(part) == [] || w.hs.marked(OutputOf(part)) then []
    else
      var s := w.hs.skeleton(part);
      if s.safe
      then [Observation(p, None, w.h.text(OutputOf(part)), w.count(OutputOf(part)), s.text, s.kind, w.hs.key(part, []))]
      else []
  }

  /** The observations of the first `n` parts, in part order. */
  function Observe(w: Setting, m: Message, n: nat): seq<Observation>
    requires n <= |m.parts|
  {
    if n == 0 then [] else Observe(w, m, n - 1) + ObservePart(w, m.parts[n - 1], n - 1)
  }

  const MARKER_OPEN := Ascii("[headroom node:")
  const MARKER_CLOSE := Ascii("]")

  function Marker(id: Digest): Text { MARKER_OPEN + id + MARKER_CLOSE }

  /** The shortest text an observation could be replaced by. */
  function MinimumReplacement(o: Observation): Text {
    Marker(seq(64, _ => 48)) + if o.kind.Failures? then [10] + o.text else []
  }

  predicate Worthwhile(w: Setting, o: Observation) {
    o.sourceTokens > w.count(MinimumReplacement(o))
  }

  function Taken(w: Setting, m: Message, index: nat, observations: seq<Observation>): seq<Candidate> {
    if observations == [] then []
    else
      var o := observations[|observations| - 1];
      Taken(w, m, index, observations[..|observations| - 1])
      + if Worthwhile(w, o) then [Candidate(o, m, index, w.h.content(m))] else []
  }

  /** A message is left alone when it is protected or has more state events than one leaf can carry. */
  predicate Spared(m: Message, protectedIds: set<Text>, events: seq<StateEvent>) {
    m.isProtected || m.id in protectedIds || |events| > LEAF_EVENTS
  }

  /** The candidates of the first `n` messages, in message and part order. */
  function Candidates(w: Setting, ms: seq<Message>, protectedIds: set<Text>, events: seq<seq<StateEvent>>, n: nat): seq<Candidate>
    requires n <= |ms| == |events|
  {
    if n == 0 then []
    else
      var m := ms[n - 1];
      Candidates(w, ms, protectedIds, events, n - 1)
      + if Spared(m, protectedIds, events[n - 1]) then [] else Taken(w, m, n - 1, Observe(w, m, |m.parts|))
  }

  // ------------------------------------------------------------------ exactly which ones

  /** A settled tool call with an output that is safe to replace and holds no node marker, or a range of a text. */
  ghost predicate Explains(w: Setting, m: Message, o: Observation) {
    && o.partIndex < |m.parts|
    && var part := m.parts[o.partIndex];
       match o.span
       case None =>
         && part.ToolPart? && part.status in {Completed, Error, Ok, Success, Failed}
         && part.output.Some? && part.output.value != [] && !w.hs.marked(part.output.value) && w.hs.skeleton(part).safe
         && var text := part.output.value;
            o == Observation(o.partIndex, None, w.h.text(text), w.count(text), w.hs.skeleton(part).text, w.hs.skeleton(part).kind,
                             w.hs.key(part, []))
       case Some(span) =>
         && part.TextPart? && span in w.hs.ranges(part.text) && span.start <= span.end <= |part.text|
         && var text := part.text[span.start..span.end];
            o == Observation(o.partIndex, Some(span), w.h.text(text), w.count(text),
                             Ascii("Explicit reference material; expand source for original content."), Decisions, w.hs.key(part, text))
  }

  /** More tokens than the shortest text it could be replaced by: a marker, and for a failure its summary below. */
  ghost predicate Gains(w: Setting, o: Observation) {
    var marker := Ascii("[headroom node:") + seq(64, _ => 48) + Ascii("]");
    o.sourceTokens > w.count(if o.kind == Failures then marker + [10] + o.text else marker)
  }

  /** What is worth replacing in a message below `n` that is not protected and has at most 64 state events. */
  ghost predicate IsCandidate(
      w: Setting, ms: seq<Message>, protectedIds: set<Text>, events: seq<seq<StateEvent>>, n: nat, c: Candidate)
    requires n <= |ms| == |events|
  {
    c.messageIndex < n && ChosenOf(w, ms[c.messageIndex], protectedIds, |events[c.messageIndex]|, c)
  }

  ghost predicate ChosenOf(w: Setting, m: Message, protectedIds: set<Text>, events: nat, c: Candidate) {
    && c.message == m && c.digest == w.h.content(m) && !m.isProtected && m.id !in protectedIds && events <= 64
    && Explains(w, m, c.observation) && Gains(w, c.observation)
  }

  lemma PartExplains(w: Setting, m: Message, p: nat, o: Observation)
    requires RangesSound(w.hs) && p < |m.parts|
    ensures o in ObservePart(w, m.parts[p], p) <==> o.partIndex == p && Explains(w, m, o)
  {
    var part := m.parts[p];
    if part.TextPart? {
      var spans := w.hs.ranges(part.text);
      forall i | 0 <= i < |spans|
        ensures ObserveRanges(w, part, p, spans)[i] == ObserveRange(w, part, p, spans[i]) && spans[i].start < spans[i].end <= |part.text|
      {
      }
      if o.span.Some? && o.span.value in spans {
        var i :| 0 <= i < |spans| && spans[i] == o.span.value;
        assert ObserveRanges(w, part, p, spans)[i] == ObserveRange(w, part, p, spans[i]);
      }
    }
  }

  lemma {:induction false} ObserveExplains(w: Setting, m: Message, n: nat, o: Observation)
    requires RangesSound(w.hs) && n <= |m.parts|
    ensures o in Observe(w, m, n) <==> o.partIndex < n && Explains(w, m, o)
  {
    if n > 0 {
      ObserveExplains(w, m, n - 1, o);
      PartExplains(w, m, n - 1, o);
    }
  }

  lemma GainsIs(w: Setting, o: Observation)
    ensures Gains(w, o) <==> Worthwhile(w, o)
  {
    var marker := Ascii("[headroom node:") + seq(64, _ => 48) + Ascii("]");
    assert MinimumReplacement(o) == if o.kind == Failures then marker + [10] + o.text else marker;
  }

  lemma {:induction false} TakenGains(w: Setting, m: Message, index: nat, observations: seq<Observation>, c: Candidate)
    ensures c in Taken(w, m, index, observations) <==>
            c == Candidate(c.observation, m, index, w.h.content(m)) && c.observation in observations && Gains(w, c.observation)
  {
    if observations != [] {
      var last := observations[|observations| - 1];
      TakenGains(w, m, index, observations[..|observations| - 1], c);
      GainsIs(w, last);
      assert observations == observations[..|observations| - 1] + [last];
    }
  }

  /** The candidates are exactly these. */
  lemma {:induction false} ChosenExactly(
      w: Setting, ms: seq<Message>, protectedIds: set<Text>, events: seq<seq<StateEvent>>, n: nat, c: Candidate)
    requires RangesSound(w.hs) && n <= |ms| == |events|
    ensures c in Candidates(w, ms, protectedIds, events, n) <==> IsCandidate(w, ms, protectedIds, events, n, c)
  {
    if n > 0 {
      ChosenExactly(w, ms, protectedIds, events, n - 1, c);
      ChosenOfMessage(w, ms[n - 1], n - 1, protectedIds, events[n - 1], c);
    }
  }

  lemma ChosenOfMessage(w: Setting, m: Message, index: nat, protectedIds: set<Text>, events: seq<StateEvent>, c: Candidate)
    requires RangesSound(w.hs)
    ensures c in (if Spared(m, protectedIds, events) then [] else Taken(w, m, index, Observe(w, m, |m.parts|))) <==>
            c.messageIndex == index && ChosenOf(w, m, protectedIds, |events|, c)
  {
    ObserveExplains(w, m, |m.parts|, c.observation);
    TakenGains(w, m, index, Observe(w, m, |m.parts|), c);
  }

  method CollectCandidates(w: Setting, ms: seq<Message>, protectedIds: set<Text>, events: seq<seq<StateEvent>>, recentStart: nat)
      returns (candidates: seq<Candidate>)
    requires recentStart <= |ms| == |events|
    ensures candidates == Candidates(w, ms, protectedIds, events, recentStart)
    ensures RangesSound(w.hs) ==> InCandidateOrder(candidates)
    ensures RangesSound(w.hs) ==> forall c :: c in candidates <==> IsCandidate(w, ms, protectedIds, events, recentStart, c)
  {
    if RangesSound(w.hs) {
      CandidatesAre(w, ms, protectedIds, events, recentStart);
      forall c
        ensures c in Candidates(w, ms, protectedIds, events, recentStart) <==> IsCandidate(w, ms, protectedIds, events, recentStart, c)
      {
        ChosenExactly(w, ms, protectedIds, events, recentStart, c);
      }
    }
    candidates := [];
    for i := 0 to recentStart
      invariant candidates == Candidates(w, ms, protectedIds, events, i)
    {
      if Spared(ms[i], protectedIds, events[i]) {
        continue;
      }
      candidates := AppendTaken(w, ms[i], i, Observe(w, ms[i], |ms[i].parts|), candidates);
    }
  }

  /** The inner loop: the worthwhile observations of one message. */
  method AppendTaken(w: Setting, m: Message, index: nat, observations: seq<Observation>, before: seq<Candidate>)
      returns (candidates: seq<Candidate>)
    ensures candidates == before + Taken(w, m, index, observations)
  {
    candidates := before;
    for k := 0 to |observations|
      invariant candidates == before + Taken(w, m, index, observations[..k])
    {
      assert observations[..k + 1][..k] == observations[..k];
      if Worthwhile(w, observations[k]) {
        candidates := candidates + [Candidate(observations[k], m, index, w.h.content(m))];
      }
    }
    assert observations[..|observations|] == observations;
  }

  // --------------------------------------------------------------- what they look like

  /** The observation describes its part as it is. */
  ghost predicate Observed(w: Setting, m: Message, o: Observation) {
    && o.partIndex < |m.parts|
    && var part := m.parts[o.partIndex];
       match o.span
       case None =>
         part.ToolPart? && PartSettled(part) && OutputOf(part) != [] && o.fieldDigest == w.h.text(OutputOf(part))
       case Some(span) =>
         part.TextPart? && span.start < span.end <= |part.text| && o.fieldDigest == w.h.text(part.text[span.start..span.end])
  }

  /** Earlier in the message, and not the same content. */
  predicate ObservedBefore(a: Observation, b: Observation) {
    a.partIndex < b.partIndex ||
    (a.partIndex == b.partIndex && a.span.Some? && b.span.Some? && a.span.value.end <= b.span.value.start)
  }

  ghost predicate InObservedOrder(observations: seq<Observation>) {
    forall i, j :: 0 <= i < j < |observations| ==> ObservedBefore(observations[i], observations[j])
  }

  ghost predicate AllObserved(w: Setting, m: Message, observations: seq<Observation>, n: nat) {
    forall i :: 0 <= i < |observations| ==> Observed(w, m, observations[i]) && observations[i].partIndex < n
  }

  lemma {:induction false} PartObserved(w: Setting, m: Message, p: nat)
    requires RangesSound(w.hs) && p < |m.parts|
    ensures forall o :: o in ObservePart(w, m.parts[p], p) ==> Observed(w, m, o) && o.partIndex == p
    ensures InObservedOrder(ObservePart(w, m.parts[p], p))
  {
    var part := m.parts[p];
    if part.TextPart? {
      var spans := w.hs.ranges(part.text);
      var observations := ObserveRanges(w, part, p, spans);
      forall i | 0 <= i < |observations|
        ensures observations[i] == ObserveRange(w, part, p, spans[i]) && Observed(w, m, observations[i])
      {
        assert spans[i].start < spans[i].end <= |part.text|;
      }
      forall i, j | 0 <= i < j < |observations|
        ensures ObservedBefore(observations[i], observations[j])
      {
        assert spans[i].end <= spans[j].start;
      }
    }
  }

  lemma {:induction false} MessageObserved(w: Setting, m: Message, n: nat)
    requires RangesSound(w.hs) && n <= |m.parts|
    ensures AllObserved(w, m, Observe(w, m, n), n) && InObservedOrder(Observe(w, m, n))
  {
    if n > 0 {
      MessageObserved(w, m, n - 1);
      NextPartObserved(w, m, n);
    }
  }

  lemma {:induction false} NextPartObserved(w: Setting, m: Message, n: nat)
    requires RangesSound(w.hs) && 0 < n <= |m.parts|
    requires AllObserved(w, m, Observe(w, m, n - 1), n - 1) && InObservedOrder(Observe(w, m, n - 1))
    ensures AllObserved(w, m, Observe(w, m, n), n) && InObservedOrder(Observe(w, m, n))
  {
    PartObserved(w, m, n - 1);
    ObservationsJoin(w, m, n, Observe(w, m, n - 1), ObservePart(w, m.parts[n - 1], n - 1));
  }

  lemma {:induction false} ObservationsJoin(w: Setting, m: Message, n: nat, before: seq<Observation>, more: seq<Observation>)
    requires n > 0 && AllObserved(w, m, before, n - 1) && InObservedOrder(before) && InObservedOrder(more)
    requires forall o :: o in more ==> Observed(w, m, o) && o.partIndex == n - 1
    ensures AllObserved(w, m, before + more, n) && InObservedOrder(before + more)
  {
    var all := before + more;
    forall i | 0 <= i < |all|
      ensures Observed(w, m, all[i]) && all[i].partIndex < n && (i >= |before| ==> all[i].partIndex == n - 1)
    {
      assert i >= |before| ==> all[i] in more;
    }
  }

  predicate CandidateBefore(a: Candidate, b: Candidate) {
    a.messageIndex < b.messageIndex || (a.messageIndex == b.messageIndex && ObservedBefore(a.observation, b.observation))
  }

  ghost predicate InCandidateOrder(candidates: seq<Candidate>) {
    forall i, j :: 0 <= i < j < |candidates| ==> CandidateBefore(candidates[i], candidates[j])
  }

  /** A candidate of an unspared message below `n`, describing its part as it is. */
  ghost predicate CandidateWell(
      w: Setting, ms: seq<Message>, protectedIds: set<Text>, events: seq<seq<StateEvent>>, n: nat, c: Candidate)
    requires n <= |ms| == |events|
  {
    && c.messageIndex < n && c.message == ms[c.messageIndex] && c.digest == w.h.content(c.message)
    && !Spared(c.message, protectedIds, events[c.messageIndex])
    && Observed(w, c.message, c.observation) && Worthwhile(w, c.observation)
  }

  ghost predicate CandidatesWell(
      w: Setting, ms: seq<Message>, protectedIds: set<Text>, events: seq<seq<StateEvent>>, n: nat, candidates: seq<Candidate>)
    requires n <= |ms| == |events|
  {
    forall i :: 0 <= i < |candidates| ==> CandidateWell(w, ms, protectedIds, events, n, candidates[i])
  }

  lemma {:induction false} TakenAre(w: Setting, m: Message, index: nat, observations: seq<Observation>)
    requires AllObserved(w, m, observations, |m.parts|) && InObservedOrder(observations)
    ensures InCandidateOrder(Taken(w, m, index, observations))
    ensures forall c :: c in Taken(w, m, index, observations) ==>
              c.messageIndex == index && c.message == m && c.digest == w.h.content(m)
              && c.observation in observations && Observed(w, m, c.observation) && Worthwhile(w, c.observation)
  {
    if observations != [] {
      var k := |observations| - 1;
      TakenAre(w, m, index, observations[..k]);
      var before := Taken(w, m, index, observations[..k]);
      forall i | 0 <= i < |before|
        ensures ObservedBefore(before[i].observation, observations[k])
      {
        assert before[i].observation in observations[..k];
      }
    }
  }

  lemma {:induction false} CandidatesAre(
      w: Setting, ms: seq<Message>, protectedIds: set<Text>, events: seq<seq<StateEvent>>, n: nat)
    requires RangesSound(w.hs) && n <= |ms| == |events|
    ensures CandidatesWell(w, ms, protectedIds, events, n, Candidates(w, ms, protectedIds, events, n))
    ensures InCandidateOrder(Candidates(w, ms, protectedIds, events, n))
  {
    if n > 0 {
      CandidatesAre(w, ms, protectedIds, events, n - 1);
      var m := ms[n - 1];
      MessageObserved(w, m, |m.parts|);
      TakenAre(w, m, n - 1, Observe(w, m, |m.parts|));
      var before := Candidates(w, ms, protectedIds, events, n - 1);
      var more := if Spared(m, protectedIds, events[n - 1]) then [] else Taken(w, m, n - 1, Observe(w, m, |m.parts|));
      JoinCandidates(w, ms, protectedIds, events, n, before, more);
    }
  }

  lemma {:induction false} JoinCandidates(
      w: Setting, ms: seq<Message>, protectedIds: set<Text>, events: seq<seq<StateEvent>>, n: nat,
      before: seq<Candidate>, more: seq<Candidate>)
    requires 0 < n <= |ms| == |events|
    requires CandidatesWell(w, ms, protectedIds, events, n - 1, before) && InCandidateOrder(before)
    requires (forall c :: c in more ==> c.messageIndex == n - 1 && CandidateWell(w, ms, protectedIds, events, n, c))
    requires InCandidateOrder(more)
    ensures CandidatesWell(w, ms, protectedIds, events, n, before + more) && InCandidateOrder(before + more)
  {
    var all := before + more;
    forall i | 0 <= i < |all|
      ensures CandidateWell(w, ms, protectedIds, events, n, all[i])
      ensures if i < |before| then all[i].messageIndex < n - 1 else all[i].messageIndex == n - 1
    {
      if i < |before| {
        assert CandidateWell(w, ms, protectedIds, events, n - 1, before[i]);
      } else {
        assert all[i] in more;
      }
    }
  }

  // ------------------------------------------------------------------- their operations

  /** The operation that replaces a candidate's field. */
  function OperationOf(c: Candidate, operationId: Digest, nodeId: Digest, replacement: Text): ViewOperation {
    var o := c.observation;
    match o.span
    case None => ToolOutput(operationId, nodeId, c.message.id, c.digest, o.partIndex, o.fieldDigest, replacement)
    case Some(span) =>
      TextRange(operationId, nodeId, c.message.id, c.digest, o.partIndex, span.start, span.end, o.fieldDigest, replacement)
  }

  /** The operation names message, digest, part and field digest of its candidate, and puts the replacement in its place. */
  ghost predicate OperationTold(c: Candidate, operationId: Digest, nodeId: Digest, replacement: Text, op: ViewOperation) {
    var o := c.observation;
    match o.span
    case None =>
      op == ToolOutput(operationId, nodeId, c.message.id, c.digest, o.partIndex, o.fieldDigest, replacement)
    case Some(at) =>
      op == TextRange(operationId, nodeId, c.message.id, c.digest, o.partIndex, at.start, at.end, o.fieldDigest, replacement)
  }

  /** One operation for each candidate, in order. */
  ghost predicate AllTold(
      naming: Naming, candidates: seq<Candidate>, nodeIds: seq<Digest>, replacements: seq<Text>, ops: seq<ViewOperation>)
  {
    && |nodeIds| == |replacements| == |candidates| == |ops|
    && forall i :: 0 <= i < |ops| ==>
         OperationTold(candidates[i], naming.operation(candidates[i], nodeIds[i]), nodeIds[i], replacements[i], ops[i])
  }

  lemma OperationsTold(naming: Naming, candidates: seq<Candidate>, nodeIds: seq<Digest>, replacements: seq<Text>)
    requires |nodeIds| == |replacements| == |candidates|
    ensures AllTold(naming, candidates, nodeIds, replacements, OperationsOf(naming, candidates, nodeIds, replacements))
  {
  }

  /** Operation ids are digests of message, part, span and node; different fields get different ids. */
  datatype Naming = Naming(operation: (Candidate, Digest) -> Digest)

  ghost predicate NamesFields(naming: Naming) {
    forall a: Candidate, b: Candidate, m: Digest, n: Digest :: naming.operation(a, m) == naming.operation(b, n) ==>
      a.message.id == b.message.id && a.observation.partIndex == b.observation.partIndex && a.observation.span == b.observation.span
  }

  function OperationsOf(naming: Naming, candidates: seq<Candidate>, nodeIds: seq<Digest>, replacements: seq<Text>): seq<ViewOperation>
    requires |nodeIds| == |replacements| == |candidates|
  {
    seq(|candidates|, i requires 0 <= i < |candidates| =>
      OperationOf(candidates[i], naming.operation(candidates[i], nodeIds[i]), nodeIds[i], replacements[i]))
  }

  lemma {:induction false} OperationFits(
      w: Setting, ms: seq<Message>, protectedIds: set<Text>, events: seq<seq<StateEvent>>, n: nat, c: Candidate,
      bound: nat, operationId: Digest, nodeId: Digest, replacement: Text)
    requires UniqueIds(ms) && n <= bound <= |ms| == |events| && CandidateWell(w, ms, protectedIds, events, n, c)
    ensures var op := OperationOf(c, operationId, nodeId, replacement);
            Fits(w.h, ms, bound, op) && Start(ms, op) == c.messageIndex && !op.Range?
  {
    FindUnique(ms, c.messageIndex);
  }

  lemma {:induction false} OperationsCompatible(
      ms: seq<Message>, naming: Naming, a: Candidate, b: Candidate, x: ViewOperation, y: ViewOperation,
      nodeA: Digest, nodeB: Digest, textA: Text, textB: Text)
    requires UniqueIds(ms) && NamesFields(naming) && CandidateBefore(a, b)
    requires a.messageIndex < |ms| && b.messageIndex < |ms| && a.message == ms[a.messageIndex] && b.message == ms[b.messageIndex]
    requires b.observation.span.Some? ==> b.observation.span.value.start < b.observation.span.value.end
    requires a.observation.span.Some? ==> a.observation.span.value.start < a.observation.span.value.end
    requires x == OperationOf(a, naming.operation(a, nodeA), nodeA, textA)
    requires y == OperationOf(b, naming.operation(b, nodeB), nodeB, textB)
    ensures Compatible(ms, x, y)
  {
    if a.messageIndex != b.messageIndex {
      assert a.message.id != b.message.id;
    }
  }

  /**
   * With unique message ids the planner's own edits always apply to the history they were made for:
   * whatever the heuristics, the counter and the replacements are.
   */
  lemma PlannedEditsApply(
      w: Setting, ms: seq<Message>, protectedIds: set<Text>, events: seq<seq<StateEvent>>, n: nat, snapshot: Snapshot,
      naming: Naming, nodeIds: seq<Digest>, replacements: seq<Text>)
    requires UniqueIds(ms) && RangesSound(w.hs) && NamesFields(naming)
    requires n <= |snapshot.messageIds| <= |ms| == |events| && SnapshotBinds(w.h, ms, snapshot)
    requires |nodeIds| == |replacements| == |Candidates(w, ms, protectedIds, events, n)| > 0
    ensures Applicable(w.h, ms, OperationsOf(naming, Candidates(w, ms, protectedIds, events, n), nodeIds, replacements), snapshot)
    ensures EditsOnly(OperationsOf(naming, Candidates(w, ms, protectedIds, events, n), nodeIds, replacements))
  {
    var candidates := Candidates(w, ms, protectedIds, events, n);
    var ops := OperationsOf(naming, candidates, nodeIds, replacements);
    CandidatesAre(w, ms, protectedIds, events, n);
    forall i | 0 <= i < |ops|
      ensures Fits(w.h, ms, |snapshot.messageIds|, ops[i]) && !ops[i].Range?
    {
      OperationFits(w, ms, protectedIds, events, n, candidates[i], |snapshot.messageIds|,
                    naming.operation(candidates[i], nodeIds[i]), nodeIds[i], replacements[i]);
    }
    forall i, j | 0 <= i < j < |ops|
      ensures Compatible(ms, ops[i], ops[j])
    {
      assert CandidateWell(w, ms, protectedIds, events, n, candidates[i]);
      assert CandidateWell(w, ms, protectedIds, events, n, candidates[j]);
      OperationsCompatible(ms, naming, candidates[i], candidates[j], ops[i], ops[j],
                           nodeIds[i], nodeIds[j], replacements[i], replacements[j]);
    }
  }
}
