/** The failing input of the shared cache: two calls of the planner, the second of which returns a refused plan. */
module StaleCounts {
  import opened Texts
  import opened Messages
  import opened Substitution
  import opened Quoting
  import opened Canonical
  import opened CanonicalProof
  import opened Digests
  import opened MessageTokens
  import opened Contract
  import opened Retention
  import opened Packing
  import opened Leaves
  import opened Candidacy
  import opened Planning
  import opened Planner
  import opened CachedPlanning
  import AnalysisCache
  import Hierarchy

  // ---------------------------------------------------------------------- the messages

  const KEY_A := Field([97], Num([49]))
  const KEY_B := Field([98], Num([50]))

  /** A finished tool call with the given input. */
  function Call(input: Json): Message {
    Message([116], Assistant, [ToolPart([120], None, Some(input), Completed, None, None)], false, None)
  }

  /** One message twice, its input keys in one order and in the other. */
  const EARLIER := Call(Obj([KEY_A, KEY_B]))
  const REPEATED := Call(Obj([KEY_B, KEY_A]))

  /** A note with fenced reference material, and the user message that starts the retained tail. */
  const LOGS := Ascii("logs:\n```\nx\n```")
  const MATERIAL := Span(6, 15)
  const NOTED := Message([117], User, [TextPart(LOGS)], false, None)
  const LATEST := Message([118], User, [], false, None)
  const HISTORY: seq<Message> := [NOTED, LATEST, REPEATED]

  lemma TwoFieldsPrintable(f: Field, g: Field)
    requires Printable(f.value) && Printable(g.value) && f.key != g.key
    ensures Printable(Obj([f, g]))
  {
    var fields := [f, g];
    assert fields[0] == f && fields[1] == g;
    assert forall i :: 0 <= i < |fields| ==> WellFormed(fields[i].value) && Plain(fields[i].value);
  }

  /** Two fields in either order are the same object. */
  lemma SwappedSame(f: Field, g: Field)
    requires Same(f.value, f.value) && Same(g.value, g.value) && f.value != Undefined && g.value != Undefined
    ensures Same(Obj([f, g]), Obj([g, f]))
  {
    var x, y := [f, g], [g, f];
    assert x[0] == f && x[1] == g && y[0] == g && y[1] == f;
    assert Matched(x, y, 0) && Matched(x, y, 1);
    assert Canonical.HasKey(x, f.key) && Canonical.HasKey(x, g.key);
  }

  lemma TwinsShareADigest(sha: Text -> Digest)
    ensures EARLIER != REPEATED && MessageSound(EARLIER) && MessageSound(REPEATED)
    ensures ContentDigest(sha, EARLIER) == ContentDigest(sha, REPEATED)
  {
    TwoFieldsPrintable(KEY_A, KEY_B);
    TwoFieldsPrintable(KEY_B, KEY_A);
    SwappedSame(KEY_A, KEY_B);
    assert [KEY_A, KEY_B][0] != [KEY_B, KEY_A][0];
    assert EARLIER.parts[0] != REPEATED.parts[0];
    assert SamePartContent(EARLIER.parts[0], REPEATED.parts[0]);
    SameContentSameDigest(sha, EARLIER, REPEATED);
  }

  // ------------------------------------------------------------------------ the counter

  /** The text of a call of tool `x` whose first input key starts with an a. */
  const TWIN: Text := [120, 10, 123, 34, 97]
  const FENCE: Text := [96]

  /** A counter that sees the order of the keys: any text that starts like `TWIN` costs ten. */
  function TwinCount(t: Text): nat {
    if TWIN <= t then 10 else if FENCE <= t then 2 else 1
  }

  lemma TwinCountIsMonotone()
    ensures PrefixMonotone(TwinCount) && FitsCharacters(TwinCount)
  {
    forall text: Text, n: nat | n <= |text|
      ensures TwinCount(text[..n]) <= TwinCount(text)
    {
      assert TWIN <= text[..n] ==> TWIN <= text;
      assert FENCE <= text[..n] ==> text[0] == 96;
    }
  }

  lemma QuoteLetter(c: CodeUnit)
    requires 97 <= c <= 122
    ensures Quote([c]) == [34, c, 34]
  {
    assert EscapeUnit(c) == [c];
    assert Escape([c]) == EscapeUnit(c) + Escape([c][1..]) && [c][1..] == [];
  }

  lemma ObjectStarts(fields: seq<Field>)
    requires fields != [] && fields[0].value != Undefined
    ensures [123] + Quote(fields[0].key) <= Stringify(Obj(fields))
  {
    var quoted := Quote(fields[0].key);
    assert StringifyFields(fields, true) == quoted + ([COLON] + Stringify(fields[0].value) + StringifyFields(fields[1..], false)) by {
      Regroup(quoted, [COLON], Stringify(fields[0].value), StringifyFields(fields[1..], false));
    }
  }

  lemma Regroup(a: Text, b: Text, c: Text, d: Text)
    ensures [] + a + b + c + d == a + (b + c + d)
  {
  }

  lemma OnePartText(m: Message)
    requires |m.parts| == 1
    ensures MessageText(m) == PartText(m.parts[0])
  {
    assert PartTexts(m.parts, 0) == [];
  }

  lemma InputStarts(input: Json, start: Text)
    requires input != Undefined && start <= Stringify(input)
    ensures [120, 10] + start <= MessageText(Call(input))
  {
    OnePartText(Call(input));
    assert PartText(Call(input).parts[0]) == [120] + [BREAK] + Stringify(input) + [BREAK] + [] + [BREAK] + [];
  }

  /** How the counted text of a call starts. */
  lemma CallStarts(fields: seq<Field>, c: CodeUnit)
    requires fields != [] && fields[0].key == [c] && 97 <= c <= 122 && fields[0].value != Undefined
    ensures [120, 10, 123, 34, c] <= MessageText(Call(Obj(fields)))
  {
    QuoteLetter(c);
    ObjectStarts(fields);
    assert [120, 10, 123, 34, c] <= [120, 10] + ([123] + [34, c, 34]);
    InputStarts(Obj(fields), [123] + [34, c, 34]);
  }

  lemma LogsAre()
    ensures |LOGS| == 15 && LOGS[0] == 108 && LOGS[6] == 96
  {
  }

  lemma TwinIsTen(t: Text, c: CodeUnit)
    requires [120, 10, 123, 34, c] <= t
    ensures TwinCount(t) == if c == 97 then 10 else 1
  {
    assert t[4] == [120, 10, 123, 34, c][4] && t[0] == 120;
    assert TWIN[4] == 97;
  }

  lemma CallTokens()
    ensures TwinCount(MessageText(EARLIER)) == 10 && TwinCount(MessageText(REPEATED)) == 1
  {
    CallStarts([KEY_A, KEY_B], 97);
    CallStarts([KEY_B, KEY_A], 98);
    TwinIsTen(MessageText(EARLIER), 97);
    TwinIsTen(MessageText(REPEATED), 98);
  }

  lemma OtherIsOne(t: Text)
    requires t == [] || (t[0] != 120 && t[0] != 96)
    ensures TwinCount(t) == 1
  {
    assert TWIN[0] == 120;
  }

  lemma NoteTokens()
    ensures TwinCount(MessageText(NOTED)) == 1 && TwinCount(MessageText(LATEST)) == 1
  {
    LogsAre();
    OnePartText(NOTED);
    OtherIsOne(LOGS);
    OtherIsOne(MessageText(LATEST));
  }

  lemma CountedTokens()
    ensures TokensBy(TwinCount)(EARLIER) == 10 && TokensBy(TwinCount)(REPEATED) == 1
    ensures TokensBy(TwinCount)(NOTED) == 1 && TokensBy(TwinCount)(LATEST) == 1
  {
    CallTokens();
    NoteTokens();
  }

  // ------------------------------------------------------------------------- the counts

  lemma HistoryDiffers(sha: Text -> Digest)
    requires Injective(sha)
    ensures KeyOf(sha)(NOTED) != KeyOf(sha)(EARLIER) && KeyOf(sha)(LATEST) != KeyOf(sha)(EARLIER)
    ensures KeyOf(sha)(NOTED) != KeyOf(sha)(LATEST)
  {
    TwinsShareADigest(sha);
    DigestBindsContent(sha, NOTED, EARLIER);
    DigestBindsContent(sha, LATEST, EARLIER);
    DigestBindsContent(sha, NOTED, LATEST);
  }

  /** After a plan of the earlier form the repeated message is counted as ten, though it counts one. */
  lemma CountIsStale(sha: Text -> Digest)
    requires Injective(sha)
    ensures AnalysisCache.SecondCounts(KeyOf(sha), TokensBy(TwinCount), AnalysisCache.UnitSize, 8, 8, [EARLIER], HISTORY) == [1, 1, 10]
    ensures TokensBy(TwinCount)(REPEATED) == 1
  {
    TwinsShareADigest(sha);
    HistoryDiffers(sha);
    CountedTokens();
    AnalysisCache.ThirdIsTwin(KeyOf(sha), TokensBy(TwinCount), EARLIER, NOTED, LATEST, REPEATED);
  }

  lemma ThreeTotals(tokens: Tokens, ms: seq<Message>, touched: set<Text>)
    requires |ms| == 3
    ensures Total(tokens, ms) == tokens(ms[0]) + tokens(ms[1]) + tokens(ms[2])
    ensures ms[0].id in touched && ms[1].id !in touched && ms[2].id !in touched ==>
              Untouched(tokens, ms, touched, 3) == tokens(ms[1]) + tokens(ms[2])
  {
    assert SumOf(tokens, ms, 1) == tokens(ms[0]) && SumOf(tokens, ms, 2) == tokens(ms[0]) + tokens(ms[1]);
    assert Untouched(tokens, ms, touched, 1) == if ms[0].id in touched then 0 else tokens(ms[0]);
  }

  // -------------------------------------------------------------------- the planner's edit

  /** The surroundings of the two calls: the fenced block is found, and nothing else about the heuristics matters. */
  ghost predicate Surroundings(w: Setting, r: Rendering, sha: Text -> Digest, options: Options) {
    && w.h == HashingOf(sha) && w.count == TwinCount && r.tokens == TokensBy(TwinCount)
    && RangesSound(w.hs) && w.hs.ranges(LOGS) == [MATERIAL] && |r.entries(NOTED)| <= LEAF_EVENTS
    && options.retain == 0 && options.protectedIds == {}
  }

  lemma BoundaryIsOne()
    ensures RecentStart(HISTORY, 0) == 1
  {
    assert TurnStarts(HISTORY, 1) == [0];
    assert TurnStarts(HISTORY, 2) == [0, 1];
    assert TurnStarts(HISTORY, 3) == [0, 1];
  }

  function Noted(w: Setting): Candidate {
    Candidate(ObserveRange(w, NOTED.parts[0], 0, MATERIAL), NOTED, 0, w.h.content(NOTED))
  }

  lemma MaterialIsWorthwhile(w: Setting)
    requires w.count == TwinCount
    ensures Worthwhile(w, ObserveRange(w, NOTED.parts[0], 0, MATERIAL))
  {
    LogsAre();
    var o := ObserveRange(w, NOTED.parts[0], 0, MATERIAL);
    assert Candidacy.Slice(LOGS, MATERIAL)[0] == 96;
    assert MinimumReplacement(o)[0] == 91;
  }

  lemma NotedIsObserved(w: Setting)
    requires w.hs.ranges(LOGS) == [MATERIAL]
    ensures Observe(w, NOTED, 1) == [ObserveRange(w, NOTED.parts[0], 0, MATERIAL)]
  {
    assert Observe(w, NOTED, 0) == [];
    assert ObservePart(w, NOTED.parts[0], 0) == [ObserveRange(w, NOTED.parts[0], 0, MATERIAL)];
  }

  lemma TakenOne(w: Setting, o: Observation)
    requires Worthwhile(w, o)
    ensures Taken(w, NOTED, 0, [o]) == [Candidate(o, NOTED, 0, w.h.content(NOTED))]
  {
    assert [o][..0] == [];
  }

  lemma ChosenIsNoted(w: Setting, r: Rendering, sha: Text -> Digest, options: Options)
    requires Surroundings(w, r, sha, options)
    ensures Chosen(w, r, HISTORY, options) == [Noted(w)]
  {
    BoundaryIsOne();
    var events := HistoryEvents(w, r, HISTORY);
    MaterialIsWorthwhile(w);
    NotedIsObserved(w);
    TakenOne(w, ObserveRange(w, NOTED.parts[0], 0, MATERIAL));
    assert |events[0]| <= LEAF_EVENTS && !Spared(NOTED, {}, events[0]);
    assert Candidates(w, HISTORY, {}, events, 0) == [];
    assert Candidates(w, HISTORY, {}, events, 1) == [Noted(w)];
  }

  lemma HistoryIsUnique()
    ensures UniqueIds(HISTORY)
  {
    assert NOTED.id[0] == 117 && LATEST.id[0] == 118 && REPEATED.id[0] == 116;
  }

  lemma FirstUnitStays(text: Text, ops: seq<ViewOperation>, id: Text, p: nat)
    requires text != [] && forall op :: op in ops ==> op.TextRange? && op.start > 0
    ensures EditText(text, ops, id, p, 0) != [] && EditText(text, ops, id, p, 0)[0] == text[0]
  {
  }

  /** Whatever replaces the material, the note still starts as it did. */
  lemma NoteStaysCheap(m: Message, text: Text, ops: seq<ViewOperation>)
    requires m.parts == [TextPart(text)] && text != [] && text[0] == 108
    requires forall op :: op in ops ==> op.TextRange? && op.start > 0
    ensures TokensBy(TwinCount)(EditMessage(m, ops)) == 1
  {
    FirstUnitStays(text, ops, m.id, 0);
    OnePartText(EditMessage(m, ops));
    OtherIsOne(EditText(text, ops, m.id, 0, 0));
  }

  /** What the planner's one edit touches, and what it leaves. */
  lemma EditLeaves(
      w: Setting, r: Rendering, sha: Text -> Digest, options: Options, naming: Naming, nodeIds: seq<Digest>, replacements: seq<Text>)
    requires Surroundings(w, r, sha, options) && |nodeIds| == |replacements| == |Chosen(w, r, HISTORY, options)|
    ensures var ops := OperationsOf(naming, Chosen(w, r, HISTORY, options), nodeIds, replacements);
            && ops != [] && TouchedIds(ops) == {NOTED.id}
            && Total(TokensBy(TwinCount), Substitute(HISTORY, ops, 0)) == 3
  {
    ChosenIsNoted(w, r, sha, options);
    var ops := OperationsOf(naming, [Noted(w)], nodeIds, replacements);
    assert ops == [ops[0]] && ops[0] == OperationOf(Noted(w), naming.operation(Noted(w), nodeIds[0]), nodeIds[0], replacements[0]);
    NotedOperation(w, naming.operation(Noted(w), nodeIds[0]), nodeIds[0], replacements[0]);
    TouchesNoted(ops[0]);
    OneEditLeaves(ops[0]);
  }

  lemma NotedOperation(w: Setting, operationId: Digest, nodeId: Digest, replacement: Text)
    ensures var op := OperationOf(Noted(w), operationId, nodeId, replacement);
            op.TextRange? && op.start == 6 && op.messageId == NOTED.id
  {
  }

  /** Only the first of three messages is edited. */
  lemma FirstEdited(ms: seq<Message>, op: ViewOperation)
    requires |ms| == 3 && UniqueIds(ms) && op.TextRange? && op.messageId == ms[0].id
    ensures Substitute(ms, [op], 0) == [EditMessage(ms[0], [op]), ms[1], ms[2]]
  {
    var after := Substitute(ms, [op], 0);
    EditsKeepShape(ms, [op], 0);
    UntouchedMessage(ms[1], [op]);
    UntouchedMessage(ms[2], [op]);
    assert after == [after[0], after[1], after[2]];
  }

  lemma OneEditLeaves(op: ViewOperation)
    requires op.TextRange? && op.start == 6 && op.messageId == NOTED.id
    ensures Total(TokensBy(TwinCount), Substitute(HISTORY, [op], 0)) == 3
  {
    HistoryIsUnique();
    FirstEdited(HISTORY, op);
    LogsAre();
    NoteStaysCheap(NOTED, LOGS, [op]);
    CountedTokens();
    ThreeTotals(TokensBy(TwinCount), Substitute(HISTORY, [op], 0), {});
  }

  lemma TouchesNoted(op: ViewOperation)
    requires op.TextRange? && op.messageId == NOTED.id
    ensures TouchedIds([op]) == {NOTED.id}
  {
    assert [op][0] == op && IdsOf(op) == [op.messageId] && [op.messageId][0] == op.messageId;
  }

  // ---------------------------------------------------------------------- the refused plan

  lemma StaleTotals(stored: Tokens)
    requires stored == CountsOf(HISTORY, [1, 1, 10])
    ensures Total(stored, HISTORY) == 12 && Untouched(stored, HISTORY, {NOTED.id}, 3) == 11
  {
    HistoryIsUnique();
    CountsOfAre(TokensBy(TwinCount), HISTORY, [1, 1, 10]);
    ThreeTotals(stored, HISTORY, {NOTED.id});
  }

  lemma BuiltIsRefused(
      w: Setting, r: Rendering, sha: Text -> Digest, options: Options, naming: Naming, stored: Tokens, plan: Plan)
    requires Surroundings(w, r, sha, options) && stored == CountsOf(HISTORY, [1, 1, 10])
    requires Built(w, r, stored, HISTORY, options, naming, plan) && Promises(w, r, HISTORY, options, plan)
    ensures plan.compacted && !Counted(stored, HISTORY, plan)
  {
    var leaves, nodeIds, taken, memory :|
      BuiltWith(w, r, stored, HISTORY, options, naming, plan, leaves, nodeIds, taken, memory);
    EditLeaves(w, r, sha, options, naming, nodeIds, AllShown(r, Chosen(w, r, HISTORY, options), leaves, taken));
    StaleTotals(stored);
  }

  lemma NotedIsCut(w: Setting, r: Rendering, sha: Text -> Digest, options: Options)
    requires Surroundings(w, r, sha, options)
    ensures AllCuttable(Chosen(w, r, HISTORY, options), |Chosen(w, r, HISTORY, options)|)
  {
    ChosenIsNoted(w, r, sha, options);
  }

  /**
   * The planner is called twice with one cache: for the earlier form of a message, and for a history that
   * has the message with its input keys reordered. The second call returns a plan that compacts, and its
   * own wire contract refuses it: the reordered message, retained as it is, is counted with ten tokens.
   */
  method StalePlanIsRefused(
      sha: Text -> Digest, w: Setting, r: Rendering, options: Options, naming: Naming,
      existing: seq<Hierarchy.Evidence>, available: set<Digest>)
      returns (ok: bool, plan: Plan)
    requires Injective(sha) && Surroundings(w, r, sha, options) && NamesFields(naming)
    requires forall i :: 0 <= i < |existing| ==> existing[i].Root?
    ensures ok && plan.compacted && !WireValid(plan)
  {
    HistoryIsUnique();
    TwinCountIsMonotone();
    NotedIsCut(w, r, sha, options);
    CountIsStale(sha);
    ok, plan := PlanTwice(sha, AnalysisCache.UnitSize, 8, 8, w, r, [EARLIER], HISTORY, options, naming, existing, available);
    BuiltIsRefused(w, r, sha, options, naming, CountsOf(HISTORY, [1, 1, 10]), plan);
  }
}
