/** Projection of host messages to the wire and the rebuild of the host view from an applied plan. */
module HostAdapter {
  import opened Texts
  import opened Messages
  import opened Substitution
  import opened Operations
  import opened Admission
  import opened Contract
  import opened Retention
  import Outcome

  /** A host field that the projection reads only when it is a string. */
  datatype HostValue = Absent | IsText(text: Text) | NotText(value: Json)

  datatype HostState = HostState(
    status: Option<ToolStatus>,
    input: Option<Json>,
    output: HostValue,
    error: HostValue,
    attachments: nat,
    compacted: bool,
    interrupted: bool,
    metadataOutput: HostValue,
    metadata: Json)

  datatype HostPart =
    | HostText(text: Text, ignored: bool, metadata: Json)
    | HostTool(tool: Text, callId: HostValue, state: HostState, metadata: Json)
    | HostStep(metadata: Json)
    | HostOpaque(kind: Text, metadata: Json)

  datatype HostRole = HostUser | HostAssistant | HostOther(name: Text)

  datatype HostMessage = HostMessage(
    id: Text,
    role: HostRole,
    hasError: bool,
    parts: seq<HostPart>,
    archive: Option<Archive>,
    metadata: Json)

  // ---------------------------------------------------------------- projection

  function TextOf(v: HostValue): Option<Text> {
    if v.IsText? then Some(v.text) else None
  }

  function StatusOf(state: HostState): ToolStatus {
    if state.status.Some? then state.status.value else Other(Ascii("pending"))
  }

  predicate IsWire(part: HostPart) {
    part.HostText? || part.HostTool?
  }

  function ProjectPart(part: HostPart): Part
    requires IsWire(part)
  {
    match part
    case HostText(text, _, _) => TextPart(text)
    case HostTool(tool, callId, state, _) =>
      ToolPart(tool, TextOf(callId), state.input, StatusOf(state), TextOf(state.error), TextOf(state.output))
  }

  /** Content that the wire form would not represent faithfully. */
  predicate Protects(part: HostPart) {
    match part
    case HostText(_, ignored, _) => ignored
    case HostTool(_, _, state, _) =>
      || state.attachments > 0
      || StatusOf(state) !in {Completed, Error}
      || (StatusOf(state) == Completed && state.compacted)
      || (StatusOf(state) == Error && state.interrupted && state.metadataOutput.IsText?)
    case HostStep(_) => false
    case HostOpaque(_, _) => true
  }

  function ProjectParts(parts: seq<HostPart>): seq<Part> {
    if parts == [] then []
    else (if IsWire(parts[0]) then [ProjectPart(parts[0])] else []) + ProjectParts(parts[1..])
  }

  predicate Projectable(m: HostMessage) {
    m.id != [] && !m.role.HostOther?
  }

  predicate ProtectedHost(m: HostMessage) {
    (m.role.HostAssistant? && m.hasError) || exists i :: 0 <= i < |m.parts| && Protects(m.parts[i])
  }

  function Project(m: HostMessage): Message
    requires Projectable(m)
  {
    Message(m.id, if m.role.HostUser? then User else Assistant, ProjectParts(m.parts), ProtectedHost(m), m.archive)
  }

  function ProjectAll(ms: seq<HostMessage>): (r: seq<Message>)
    requires forall i :: 0 <= i < |ms| ==> Projectable(ms[i])
    ensures |r| == |ms| && forall i :: 0 <= i < |ms| ==> r[i] == Project(ms[i])
  {
    seq(|ms|, i requires 0 <= i < |ms| => Project(ms[i]))
  }

  // ------------------------------------------------- what the projection shows and hides

  /** How many of the first `n` parts are texts or tool calls. */
  function Rank(parts: seq<HostPart>, n: nat): nat
    requires n <= |parts|
  {
    if n == 0 then 0 else Rank(parts, n - 1) + if parts[n - 1].HostText? || parts[n - 1].HostTool? then 1 else 0
  }

  /** The wire form of a text or a tool call. */
  ghost predicate ShownAs(part: HostPart, wire: Part) {
    match part
    case HostText(text, _, _) => wire == TextPart(text)
    case HostTool(tool, callId, state, _) =>
      && wire.ToolPart? && wire.tool == tool && Given(callId, wire.callId) && wire.input == state.input
      && wire.status == (if state.status.Some? then state.status.value else Other(Ascii("pending")))
      && Given(state.output, wire.output) && Given(state.error, wire.error)
    case _ => false
  }

  /** A host field is shown when it is a string, and not otherwise. */
  ghost predicate Given(value: HostValue, shown: Option<Text>) {
    shown == if value.IsText? then Some(value.text) else None
  }

  /** The part has content that its wire form would not show as it is, or no wire form. */
  ghost predicate Hides(part: HostPart) {
    || part.HostOpaque? || (part.HostText? && part.ignored)
    || (part.HostTool? && (part.state.attachments > 0 || (part.state.status != Some(Completed) && part.state.status != Some(Error))))
    || (part.HostTool? && part.state.status == Some(Completed) && part.state.compacted)
    || (part.HostTool? && part.state.status == Some(Error) && part.state.interrupted && part.state.metadataOutput.IsText?)
  }

  /** The wire form of a message: its texts and tool calls in order, protected when anything is hidden. */
  ghost predicate Shows(m: HostMessage, shown: Message) {
    && shown.id == m.id && shown.role == (if m.role.HostUser? then User else Assistant) && shown.archive == m.archive
    && |shown.parts| == Rank(m.parts, |m.parts|)
    && (forall i :: 0 <= i < |m.parts| && (m.parts[i].HostText? || m.parts[i].HostTool?) ==>
          Rank(m.parts, i) < |shown.parts| && ShownAs(m.parts[i], shown.parts[Rank(m.parts, i)]))
    && (shown.isProtected <==> (m.role.HostAssistant? && m.hasError) || exists part :: part in m.parts && Hides(part))
  }

  lemma {:induction false} ProjectRanks(parts: seq<HostPart>, n: nat)
    requires n <= |parts|
    ensures |ProjectParts(parts[..n])| == Rank(parts, n)
    ensures forall i :: 0 <= i < n && IsWire(parts[i]) ==>
              Rank(parts, i) < Rank(parts, n) && ProjectParts(parts[..n])[Rank(parts, i)] == ProjectPart(parts[i])
  {
    if n > 0 {
      ProjectRanks(parts, n - 1);
      ProjectPush(parts, n - 1);
    }
  }

  lemma ProjectShows(m: HostMessage)
    requires Projectable(m)
    ensures Shows(m, Project(m))
  {
    ProjectRanks(m.parts, |m.parts|);
    assert m.parts[..|m.parts|] == m.parts;
    forall i | 0 <= i < |m.parts|
      ensures Protects(m.parts[i]) <==> Hides(m.parts[i])
      ensures IsWire(m.parts[i]) ==> ShownAs(m.parts[i], ProjectPart(m.parts[i]))
    {
    }
  }

  /** `projectMessage`, part by part. */
  method ProjectMessage(m: HostMessage) returns (r: Option<Message>)
    ensures r == if Projectable(m) then Some(Project(m)) else None
    ensures r.Some? <==> m.id != [] && (m.role.HostUser? || m.role.HostAssistant?)
    ensures r.Some? ==> Shows(m, r.value)
  {
    if !Projectable(m) {
      return None;
    }
    ProjectShows(m);
    var isProtected := m.role.HostAssistant? && m.hasError;
    var parts := [];
    for i := 0 to |m.parts|
      invariant parts == ProjectParts(m.parts[..i])
      invariant isProtected <==> (m.role.HostAssistant? && m.hasError) || exists k :: 0 <= k < i && Protects(m.parts[k])
    {
      ProjectPush(m.parts, i);
      if Protects(m.parts[i]) {
        isProtected := true;
      }
      if IsWire(m.parts[i]) {
        parts := parts + [ProjectPart(m.parts[i])];
      }
    }
    assert m.parts[..|m.parts|] == m.parts;
    return Some(Message(m.id, if m.role.HostUser? then User else Assistant, parts, isProtected, m.archive));
  }

  lemma {:induction false} ProjectPush(parts: seq<HostPart>, i: nat)
    requires i < |parts|
    ensures ProjectParts(parts[..i + 1]) == ProjectParts(parts[..i]) + (if IsWire(parts[i]) then [ProjectPart(parts[i])] else [])
    decreases i
  {
    if i > 0 {
      ProjectPush(parts[1..], i - 1);
      assert parts[..i + 1][1..] == parts[1..][..i];
      assert parts[..i][1..] == parts[1..][..i - 1];
    }
  }

  // ------------------------------------------------------------------- rebuild

  /** The host part with the wire part's text, output and error written back. */
  function WriteBack(part: HostPart, updated: Part): HostPart {
    if part.HostText? && updated.TextPart? then part.(text := updated.text)
    else if part.HostTool? && updated.ToolPart? then
      var withOutput := if updated.output.Some? then part.state.(output := IsText(updated.output.value)) else part.state;
      part.(state := if updated.error.Some? then withOutput.(error := IsText(updated.error.value)) else withOutput)
    else part
  }

  function Overlay(host: seq<HostPart>, updated: seq<Part>): (r: seq<HostPart>)
    ensures |r| == |host|
  {
    if host == [] then []
    else if !IsWire(host[0]) then [host[0]] + Overlay(host[1..], updated)
    else if updated == [] then host
    else [WriteBack(host[0], updated[0])] + Overlay(host[1..], updated[1..])
  }

  /** A text takes the new text; a tool call takes a new output and a new error where there is one. */
  ghost predicate Wrote(part: HostPart, updated: Part, now: HostPart) {
    if part.HostText? && updated.TextPart? then now == HostText(updated.text, part.ignored, part.metadata)
    else if part.HostTool? && updated.ToolPart? then
      && now.HostTool? && now == HostTool(part.tool, part.callId, part.state.(output := now.state.output, error := now.state.error), part.metadata)
      && now.state.output == (if updated.output.Some? then IsText(updated.output.value) else part.state.output)
      && now.state.error == (if updated.error.Some? then IsText(updated.error.value) else part.state.error)
    else now == part
  }

  /** The n-th text or tool call takes the content of the n-th wire part; every other part is as before. */
  ghost predicate Overlaid(host: seq<HostPart>, updated: seq<Part>, now: seq<HostPart>) {
    && |now| == |host|
    && forall i :: 0 <= i < |host| ==> OverlaidAt(host, updated, i, now[i])
  }

  ghost predicate OverlaidAt(host: seq<HostPart>, updated: seq<Part>, i: nat, now: HostPart)
    requires i < |host|
  {
    if (host[i].HostText? || host[i].HostTool?) && Rank(host, i) < |updated| then Wrote(host[i], updated[Rank(host, i)], now)
    else now == host[i]
  }

  lemma {:induction false} RankTail(parts: seq<HostPart>, n: nat)
    requires 0 < n <= |parts|
    ensures Rank(parts, n) == Rank(parts[1..], n - 1) + if IsWire(parts[0]) then 1 else 0
  {
    if n > 1 {
      RankTail(parts, n - 1);
      assert parts[1..][n - 2] == parts[n - 1];
    }
  }

  lemma {:induction false} OverlayIs(host: seq<HostPart>, updated: seq<Part>, i: nat)
    requires i < |host|
    ensures OverlaidAt(host, updated, i, Overlay(host, updated)[i])
  {
    if i > 0 {
      RankTail(host, i);
      if !IsWire(host[0]) {
        OverlayIs(host[1..], updated, i - 1);
      } else if updated != [] {
        OverlayIs(host[1..], updated[1..], i - 1);
      }
    }
  }

  method OverlayParts(host: seq<HostPart>, updated: seq<Part>) returns (parts: seq<HostPart>)
    ensures parts == Overlay(host, updated) && Overlaid(host, updated, parts)
  {
    forall i | 0 <= i < |host|
      ensures OverlaidAt(host, updated, i, Overlay(host, updated)[i])
    {
      OverlayIs(host, updated, i);
    }
    parts := [];
    var index := 0;
    for i := 0 to |host|
      invariant 0 <= index <= |updated|
      invariant parts + Overlay(host[i..], updated[index..]) == Overlay(host, updated)
    {
      var part := host[i];
      assert host[i..] == [part] + host[i + 1..];
      if IsWire(part) && index < |updated| {
        assert updated[index..] == [updated[index]] + updated[index + 1..];
        parts := parts + [WriteBack(part, updated[index])];
        index := index + 1;
      } else {
        if IsWire(part) {
          OverlayExhausted(host[i + 1..]);
        }
        parts := parts + [part];
      }
    }
  }

  lemma {:induction false} OverlayExhausted(host: seq<HostPart>)
    ensures Overlay(host, []) == host
  {
    if host != [] {
      OverlayExhausted(host[1..]);
    }
  }

  function OverlayMessage(host: HostMessage, message: Message): HostMessage {
    host.(parts := Overlay(host.parts, message.parts),
          archive := if message.archive.Some? then message.archive else host.archive)
  }

  /** A fresh host message for a range replacement, in the session of its first source. */
  function HostReplacement(source: HostMessage, replacement: Message): HostMessage {
    HostMessage(
      replacement.id,
      if replacement.role.User? then HostUser else HostAssistant,
      source.hasError,
      seq(|replacement.parts|, p requires 0 <= p < |replacement.parts| => FreshPart(replacement.parts[p])),
      replacement.archive,
      source.metadata)
  }

  function FreshPart(part: Part): HostPart {
    match part
    case TextPart(text) => HostText(text, false, Null)
    case ToolPart(tool, _, _, status, error, output) =>
      HostTool(tool, Absent,
               HostState(Some(status), None, ValueOf(output), ValueOf(error), 0, false, false, Absent, Null), Null)
  }

  function ValueOf(t: Option<Text>): HostValue {
    if t.Some? then IsText(t.value) else Absent
  }

  function HostIndex(ms: seq<HostMessage>, id: Text): (k: nat)
    ensures k <= |ms|
    ensures k < |ms| ==> ms[k].id == id
  {
    if ms == [] then 0 else if ms[0].id == id then 0 else 1 + HostIndex(ms[1..], id)
  }

  /** The host form of one message of the rewritten history. */
  function Rebuilt(ms: seq<HostMessage>, ops: seq<ViewOperation>, message: Message): Option<HostMessage>
    requires forall i :: 0 <= i < |ms| ==> Projectable(ms[i])
  {
    var k := HostIndex(ms, message.id);
    if k < |ms| then
      Some(if message == Project(ms[k]) then ms[k] else OverlayMessage(ms[k], message))
    else
      var op := ReplacementOf(ops, message.id);
      if op.Some? && op.value.Range? && op.value.messageIds != [] && HostIndex(ms, op.value.messageIds[0]) < |ms| then
        Some(HostReplacement(ms[HostIndex(ms, op.value.messageIds[0])], message))
      else None
  }

  function ReplacementOf(ops: seq<ViewOperation>, id: Text): (r: Option<ViewOperation>)
    ensures r.Some? ==> r.value in ops && r.value.Range? && r.value.replacement.id == id
    ensures r.None? ==> forall op :: op in ops && op.Range? ==> op.replacement.id != id
  {
    if ops == [] then None
    else if ops[0].Range? && ops[0].replacement.id == id then Some(ops[0])
    else ReplacementOf(ops[1..], id)
  }

  /** The first host message of this id. */
  ghost predicate HostOf(ms: seq<HostMessage>, id: Text, k: nat) {
    k < |ms| && ms[k].id == id && forall i :: 0 <= i < k ==> ms[i].id != id
  }

  /** The host message that carries a rewritten wire message which has the id of one before. */
  ghost predicate Edited(host: HostMessage, message: Message, now: HostMessage) {
    if Projectable(host) && message == Project(host) then now == host
    else
      && Overlaid(host.parts, message.parts, now.parts)
      && now == host.(parts := now.parts, archive := if message.archive.Some? then message.archive else host.archive)
  }

  /** A host message for the replacement of a range, with what its first source says about the session. */
  ghost predicate StandsIn(source: HostMessage, message: Message, now: HostMessage) {
    && now.id == message.id && now.role == (if message.role.User? then HostUser else HostAssistant)
    && now.archive == message.archive && now.hasError == source.hasError && now.metadata == source.metadata
    && |now.parts| == |message.parts| && forall p :: 0 <= p < |message.parts| ==> ShownBare(now.parts[p], message.parts[p])
  }

  /** A new host part that shows the text, or the tool, status, output and error of a call, and hides nothing else. */
  ghost predicate ShownBare(now: HostPart, part: Part) {
    if part.TextPart? then now == HostText(part.text, false, Null)
    else
      && now.HostTool? && now.tool == part.tool && now.callId.Absent? && now.metadata == Null
      && now.state.status == Some(part.status) && now.state.input.None? && now.state.attachments == 0
      && !now.state.compacted && !now.state.interrupted && now.state.metadataOutput.Absent? && now.state.metadata == Null
      && Given(now.state.output, part.output) && !now.state.output.NotText?
      && Given(now.state.error, part.error) && !now.state.error.NotText?
  }

  ghost predicate Carried(ms: seq<HostMessage>, ops: seq<ViewOperation>, message: Message, now: HostMessage) {
    || (exists k: nat :: HostOf(ms, message.id, k) && Edited(ms[k], message, now))
    || ((forall k :: 0 <= k < |ms| ==> ms[k].id != message.id)
        && exists op, k: nat :: op in ops && Replaces(op, message.id) && HostOf(ms, op.messageIds[0], k) && StandsIn(ms[k], message, now))
  }

  /** The history that the operations publish, message by message in host form. */
  ghost predicate Shown(ms: seq<HostMessage>, ops: seq<ViewOperation>, now: seq<HostMessage>)
    requires forall i :: 0 <= i < |ms| ==> Projectable(ms[i])
  {
    exists after :: Outcome.Outcome(ProjectAll(ms), ops, after) && CarriedAll(ms, ops, after, now)
  }

  ghost predicate CarriedAll(ms: seq<HostMessage>, ops: seq<ViewOperation>, after: seq<Message>, now: seq<HostMessage>) {
    |now| == |after| && forall i :: 0 <= i < |after| ==> Carried(ms, ops, after[i], now[i])
  }

  ghost predicate Replaces(op: ViewOperation, id: Text) {
    op.Range? && op.replacement.id == id && op.messageIds != []
  }

  lemma {:induction false} HostIndexIs(ms: seq<HostMessage>, id: Text)
    ensures HostIndex(ms, id) < |ms| ==> HostOf(ms, id, HostIndex(ms, id))
    ensures HostIndex(ms, id) == |ms| ==> forall k :: 0 <= k < |ms| ==> ms[k].id != id
  {
    if ms != [] && ms[0].id != id {
      HostIndexIs(ms[1..], id);
      assert forall k :: 0 < k < |ms| ==> ms[k] == ms[1..][k - 1];
    }
  }

  lemma RebuiltCarries(ms: seq<HostMessage>, ops: seq<ViewOperation>, message: Message)
    requires (forall i :: 0 <= i < |ms| ==> Projectable(ms[i])) && Rebuilt(ms, ops, message).Some?
    ensures Carried(ms, ops, message, Rebuilt(ms, ops, message).value)
  {
    var k := HostIndex(ms, message.id);
    HostIndexIs(ms, message.id);
    if k < |ms| {
      forall i | 0 <= i < |ms[k].parts|
        ensures OverlaidAt(ms[k].parts, message.parts, i, Overlay(ms[k].parts, message.parts)[i])
      {
        OverlayIs(ms[k].parts, message.parts, i);
      }
      assert Edited(ms[k], message, Rebuilt(ms, ops, message).value);
    } else {
      var op := ReplacementOf(ops, message.id).value;
      HostIndexIs(ms, op.messageIds[0]);
      assert Replaces(op, message.id) && StandsIn(ms[HostIndex(ms, op.messageIds[0])], message, Rebuilt(ms, ops, message).value);
    }
  }

  lemma {:induction false} HostIndexIsFind(ms: seq<HostMessage>, id: Text)
    requires forall i :: 0 <= i < |ms| ==> Projectable(ms[i])
    ensures HostIndex(ms, id) == Find(ProjectAll(ms), id)
  {
    if ms != [] {
      HostIndexIsFind(ms[1..], id);
      assert ProjectAll(ms)[1..] == ProjectAll(ms[1..]);
    }
  }

  /** The adapter's `throw` is never reached: every published message has a host source. */
  lemma EveryMessageHasSource(
      h: Hashing, ms: seq<HostMessage>, ops: seq<ViewOperation>, snapshot: Snapshot, i: nat)
    requires forall k :: 0 <= k < |ms| ==> Projectable(ms[k])
    requires Applicable(h, ProjectAll(ms), ops, snapshot)
    requires i < |Substitute(ProjectAll(ms), ops, 0)|
    ensures Rebuilt(ms, ops, Substitute(ProjectAll(ms), ops, 0)[i]).Some?
  {
    var projection := ProjectAll(ms);
    var message := Substitute(projection, ops, 0)[i];
    WellPlacedTiled(h, projection, ops, snapshot);
    var j := OriginOf(projection, ops, 0, i);
    HostIndexIsFind(ms, message.id);
    var r := RangeAt(projection, ops, j);
    if r.None? {
      FindUnique(projection, j);
    } else {
      var op := ReplacementOf(ops, message.id);
      assert Fits(h, projection, |snapshot.messageIds|, op.value);
      HostIndexIsFind(ms, op.value.messageIds[0]);
    }
  }

  // ---------------------------------------------------- edits inside messages only

  /** `after` differs from `before` only in text and in outputs that are present. */
  predicate EditedPart(before: Part, after: Part) {
    if before.TextPart? then after.TextPart?
    else after == before || (after.ToolPart? && after.output.Some? && after == before.(output := after.output))
  }

  ghost predicate EditedParts(before: seq<Part>, after: seq<Part>) {
    |before| == |after| && forall p :: 0 <= p < |before| ==> EditedPart(before[p], after[p])
  }

  lemma EditsAreShallow(m: Message, ops: seq<ViewOperation>)
    ensures EditedParts(m.parts, EditMessage(m, ops).parts)
  {
  }

  /** Everything of a host part that an edit must not touch. */
  predicate SameBesideContent(before: HostPart, after: HostPart) {
    match before
    case HostText(_, ignored, metadata) => after.HostText? && after == before.(text := after.text)
    case HostTool(_, _, state, _) =>
      after.HostTool? && after == before.(state := before.state.(output := after.state.output))
    case _ => after == before
  }

  lemma WriteBackProjects(host: HostPart, updated: Part)
    requires IsWire(host) && EditedPart(ProjectPart(host), updated)
    ensures IsWire(WriteBack(host, updated)) && ProjectPart(WriteBack(host, updated)) == updated
    ensures SameBesideContent(host, WriteBack(host, updated))
    ensures Protects(WriteBack(host, updated)) == Protects(host)
  {
  }

  lemma {:induction false} OverlayProjects(host: seq<HostPart>, updated: seq<Part>)
    requires EditedParts(ProjectParts(host), updated)
    ensures ProjectParts(Overlay(host, updated)) == updated
    ensures forall i :: 0 <= i < |host| ==> SameBesideContent(host[i], Overlay(host, updated)[i])
    ensures forall i :: 0 <= i < |host| ==> Protects(Overlay(host, updated)[i]) == Protects(host[i])
  {
    if host != [] {
      if IsWire(host[0]) {
        assert ProjectParts(host)[0] == ProjectPart(host[0]);
        assert ProjectParts(host)[1..] == ProjectParts(host[1..]);
        WriteBackProjects(host[0], updated[0]);
        OverlayProjects(host[1..], updated[1..]);
        assert updated == [updated[0]] + updated[1..];
      } else {
        assert ProjectParts(host) == ProjectParts(host[1..]);
        OverlayProjects(host[1..], updated);
      }
    }
  }

  /** Metadata, opaque parts and part positions of a message survive; only text and output may differ. */
  ghost predicate OpaqueKept(before: HostMessage, after: HostMessage) {
    && after == before.(parts := after.parts)
    && |after.parts| == |before.parts|
    && forall i :: 0 <= i < |before.parts| ==> SameBesideContent(before.parts[i], after.parts[i])
  }

  lemma OverlayMessageProjects(host: HostMessage, ops: seq<ViewOperation>)
    requires Projectable(host)
    ensures var message := EditMessage(Project(host), ops);
            var now := if message == Project(host) then host else OverlayMessage(host, message);
            Projectable(now) && Project(now) == message && OpaqueKept(host, now)
  {
    var message := EditMessage(Project(host), ops);
    EditsAreShallow(Project(host), ops);
    OverlayProjects(host.parts, message.parts);
    var now := OverlayMessage(host, message);
    assert ProtectedHost(now) == ProtectedHost(host);
    forall part | part in host.parts
      ensures SameBesideContent(part, part)
    {
    }
  }

  /**
   * Projection commutes with rewriting: for plans of tool-output and text-range edits, projecting the
   * rebuilt host history is rewriting the projected history, and nothing opaque moved or changed.
   */
  lemma ProjectionCommutes(h: Hashing, ms: seq<HostMessage>, ops: seq<ViewOperation>, snapshot: Snapshot, i: nat)
    requires forall k :: 0 <= k < |ms| ==> Projectable(ms[k])
    requires EditsOnly(ops) && Applicable(h, ProjectAll(ms), ops, snapshot) && i < |ms|
    ensures |Substitute(ProjectAll(ms), ops, 0)| == |ms|
    ensures var now := Rebuilt(ms, ops, Substitute(ProjectAll(ms), ops, 0)[i]);
            && now.Some? && Projectable(now.value)
            && Project(now.value) == Substitute(ProjectAll(ms), ops, 0)[i]
            && OpaqueKept(ms[i], now.value)
  {
    var projection := ProjectAll(ms);
    EditsKeepShape(projection, ops, 0);
    assert Substitute(projection, ops, 0)[i] == EditMessage(projection[i], ops);
    HostIndexIsFind(ms, ms[i].id);
    FindUnique(projection, i);
    OverlayMessageProjects(ms[i], ops);
  }

  // ------------------------------------------------------------- applyHostView

  predicate AllProjectable(ms: seq<HostMessage>) {
    forall i :: 0 <= i < |ms| ==> Projectable(ms[i])
  }

  method ProjectMessages(ms: seq<HostMessage>) returns (r: Option<seq<Message>>)
    ensures r.Some? <==> AllProjectable(ms)
    ensures r.Some? ==> r.value == ProjectAll(ms)
  {
    var projected := [];
    for i := 0 to |ms|
      invariant |projected| == i
      invariant forall k :: 0 <= k < i ==> Projectable(ms[k]) && projected[k] == Project(ms[k])
    {
      var message := ProjectMessage(ms[i]);
      if message.None? {
        return None;
      }
      projected := projected + [message.value];
    }
    return Some(projected);
  }

  method TouchesRecent(projection: seq<Message>, ops: seq<ViewOperation>, retain: nat) returns (touches: bool)
    ensures touches <==> !RespectsRetention(projection, ops, retain)
  {
    var recentStart := ComputeRecentStart(projection, retain);
    var recentIds: set<Text> := {};
    for i := recentStart to |projection|
      invariant forall id :: id in recentIds <==> exists k :: recentStart <= k < i && projection[k].id == id
    {
      recentIds := recentIds + {projection[i].id};
    }
    for n := 0 to |ops|
      invariant forall m, k :: 0 <= m < n && 0 <= k < |IdsOf(ops[m])| ==> IdsOf(ops[m])[k] !in recentIds
    {
      var ids := IdsOf(ops[n]);
      for j := 0 to |ids|
        invariant forall k :: 0 <= k < j ==> ids[k] !in recentIds
      {
        if ids[j] in recentIds {
          var k :| recentStart <= k < |projection| && projection[k].id == ids[j];
          assert ops[n] in ops && projection[k].id in IdsOf(ops[n]);
          return true;
        }
      }
    }
    forall op, i | op in ops && recentStart <= i < |projection|
      ensures projection[i].id !in IdsOf(op)
    {
      var m :| 0 <= m < |ops| && ops[m] == op;
      assert projection[i].id in recentIds;
    }
    return false;
  }

  /** The host's own message array, edited in place. */
  class HostHistory {
    var messages: seq<HostMessage>

    constructor (initial: seq<HostMessage>)
      ensures messages == initial
    {
      messages := initial;
    }

    /** The guards in front of the materializer. */
    ghost static predicate Offered(host: seq<HostMessage>, plan: Plan, retain: Option<nat>)
      requires plan.operations.Some?
    {
      && AllProjectable(host)
      && plan.sourceDigests.Some? && plan.sourceDigests.value != []
      && (retain.Some? ==> RespectsRetention(ProjectAll(host), plan.operations.value, retain.value))
    }

    /** When a layered plan may be published over `host`. */
    ghost static predicate Admissible(h: Hashing, host: seq<HostMessage>, plan: Plan, retain: Option<nat>)
      requires plan.operations.Some?
    {
      && Offered(host, plan, retain)
      && plan.sourceSnapshot.Some?
      && Applicable(h, ProjectAll(host), plan.operations.value, plan.sourceSnapshot.value)
    }

    method ApplyHostView(h: Hashing, plan: Plan, retain: Option<nat>) returns (status: Status)
      requires plan.operations.Some?
      modifies this
      ensures status.Applied? <==> Admissible(h, old(messages), plan, retain)
      ensures status.NoMatch? <==>
                && Offered(old(messages), plan, retain) && plan.sourceSnapshot.Some?
                && StopsUnmatched(h, ProjectAll(old(messages)), plan.operations.value, plan.sourceSnapshot.value)
      ensures !status.Applied? ==> messages == old(messages)
      ensures status.Applied? ==>
                var after := Substitute(ProjectAll(old(messages)), plan.operations.value, 0);
                && |messages| == |after|
                && forall i :: 0 <= i < |after| ==> Rebuilt(old(messages), plan.operations.value, after[i]) == Some(messages[i])
      ensures status.Applied? ==> AllProjectable(old(messages)) && Shown(old(messages), plan.operations.value, messages)
    {
      var ops := plan.operations.value;
      var projected := ProjectMessages(messages);
      if projected.None? || plan.sourceDigests.None? || plan.sourceDigests.value == [] {
        return Invalid;
      }
      var projection := projected.value;
      if retain.Some? {
        var touches := TouchesRecent(projection, ops, retain.value);
        if touches {
          return Invalid;
        }
      }
      var after;
      status, after := MaterializeOperations(h, projection, ops, plan.sourceSnapshot);
      if !status.Applied? {
        return;
      }
      EverySource(h, messages, ops, plan.sourceSnapshot.value, after);
      var rebuilt := RebuildAll(messages, ops, after);
      messages := rebuilt;
    }
  }

  lemma EverySource(h: Hashing, ms: seq<HostMessage>, ops: seq<ViewOperation>, snapshot: Snapshot, after: seq<Message>)
    requires AllProjectable(ms) && Applicable(h, ProjectAll(ms), ops, snapshot)
    requires after == Substitute(ProjectAll(ms), ops, 0)
    ensures forall i :: 0 <= i < |after| ==> Rebuilt(ms, ops, after[i]).Some?
  {
    forall i | 0 <= i < |after|
      ensures Rebuilt(ms, ops, after[i]).Some?
    {
      EveryMessageHasSource(h, ms, ops, snapshot, i);
    }
  }

  method RebuildAll(ms: seq<HostMessage>, ops: seq<ViewOperation>, after: seq<Message>) returns (rebuilt: seq<HostMessage>)
    requires AllProjectable(ms) && forall i :: 0 <= i < |after| ==> Rebuilt(ms, ops, after[i]).Some?
    ensures |rebuilt| == |after| && forall i :: 0 <= i < |after| ==> Rebuilt(ms, ops, after[i]) == Some(rebuilt[i])
    ensures CarriedAll(ms, ops, after, rebuilt)
  {
    rebuilt := [];
    for i := 0 to |after|
      invariant |rebuilt| == i
      invariant forall k :: 0 <= k < i ==> Rebuilt(ms, ops, after[k]) == Some(rebuilt[k]) && Carried(ms, ops, after[k], rebuilt[k])
    {
      RebuiltCarries(ms, ops, after[i]);
      var host := RebuildOne(ms, ops, after[i]);
      rebuilt := rebuilt + [host];
    }
  }

  method RebuildOne(ms: seq<HostMessage>, ops: seq<ViewOperation>, message: Message) returns (host: HostMessage)
    requires AllProjectable(ms) && Rebuilt(ms, ops, message).Some?
    ensures Some(host) == Rebuilt(ms, ops, message)
  {
    var k := HostIndex(ms, message.id);
    if k < |ms| {
      var before := ProjectMessage(ms[k]);
      if Some(message) == before {
        return ms[k];
      }
      var parts := OverlayParts(ms[k].parts, message.parts);
      return ms[k].(parts := parts, archive := if message.archive.Some? then message.archive else ms[k].archive);
    }
    var op := ReplacementOf(ops, message.id).value;
    return HostReplacement(ms[HostIndex(ms, op.messageIds[0])], message);
  }
}
