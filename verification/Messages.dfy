/** The wire projection of a chat history and the edits a plan makes to it. */
module Messages {
  import opened Texts

  /** A JavaScript value as it can appear in a tool input. */
  datatype Json =
    | Null
    | Undefined
    | Bool(b: bool)
    | Num(literal: Text)
    | NonFinite
    | Str(s: Text)
    | Arr(items: seq<Json>)
    | Obj(fields: seq<Field>)

  datatype Field = Field(key: Text, value: Json)

  datatype Role = User | Assistant

  datatype MemoryKind = Constraints | Decisions | Changes | Verification | Failures | Open

  datatype MemoryEntry = MemoryEntry(kind: MemoryKind, text: Text, sourceIds: seq<Text>)

  datatype Archive = Archive(
    historyHash: Digest,
    memory: seq<MemoryEntry>,
    nodeIds: Option<seq<Digest>>,
    protectedMemory: Option<seq<MemoryEntry>>)

  /** A tool state is an open string; only these five names count as completed. */
  datatype ToolStatus = Completed | Error | Ok | Success | Failed | Other(name: Text)

  datatype Part =
    | TextPart(text: Text)
    | ToolPart(tool: Text, callId: Option<Text>, input: Option<Json>,
               status: ToolStatus, error: Option<Text>, output: Option<Text>)

  datatype Message = Message(
    id: Text,
    role: Role,
    parts: seq<Part>,
    isProtected: bool,
    archive: Option<Archive>)

  datatype Snapshot = Snapshot(messageIds: seq<Text>, sourceDigests: seq<Digest>)

  datatype ViewOperation =
    | Range(operationId: Digest, nodeId: Digest,
            messageIds: seq<Text>, sourceDigests: seq<Digest>, replacement: Message)
    | ToolOutput(operationId: Digest, nodeId: Digest,
                 messageId: Text, sourceDigest: Digest, partIndex: nat,
                 outputDigest: Digest, output: Text)
    | TextRange(operationId: Digest, nodeId: Digest,
                messageId: Text, sourceDigest: Digest, partIndex: nat,
                start: nat, end: nat, textDigest: Digest, text: Text)

  /** SHA-256 seen from above: the digest of a message and the digest of a text. */
  datatype Hashing = Hashing(content: Message -> Digest, text: Text -> Digest)

  function OutputOf(part: Part): Text
    requires part.ToolPart?
  {
    if part.output.Some? then part.output.value else []
  }

  predicate PartSettled(part: Part) {
    part.TextPart? || !part.status.Other?
  }

  ghost predicate UniqueIds(ms: seq<Message>) {
    forall i, j :: 0 <= i < j < |ms| ==> ms[i].id != ms[j].id
  }

  /** Position of the first message carrying `id`, or `|ms|` when none does. */
  function Find(ms: seq<Message>, id: Text): (k: nat)
    ensures k <= |ms|
    ensures k < |ms| ==> ms[k].id == id
  {
    if ms == [] then 0
    else if ms[0].id == id then 0
    else 1 + Find(ms[1..], id)
  }

  lemma {:induction false} FindFirst(ms: seq<Message>, id: Text)
    ensures forall i :: 0 <= i < Find(ms, id) ==> ms[i].id != id
  {
    if ms != [] && ms[0].id != id {
      FindFirst(ms[1..], id);
    }
  }

  lemma FindUnique(ms: seq<Message>, k: nat)
    requires UniqueIds(ms) && k < |ms|
    ensures Find(ms, ms[k].id) == k
  {
    FindFirst(ms, ms[k].id);
  }

  /** `snapshot` names a prefix of `ms`, message by message, with matching digests. */
  ghost predicate SnapshotBinds(h: Hashing, ms: seq<Message>, snapshot: Snapshot) {
    && |snapshot.messageIds| == |snapshot.sourceDigests| <= |ms|
    && forall i :: 0 <= i < |snapshot.messageIds| ==>
         && ms[i].id == snapshot.messageIds[i]
         && h.content(ms[i]) == snapshot.sourceDigests[i]
  }

  /** The shape rules of `viewOperationSchema`. */
  ghost predicate SchemaValid(op: ViewOperation) {
    match op
    case Range(_, _, ids, digests, _) => ids != [] && |ids| == |digests| && Distinct(ids)
    case ToolOutput(_, _, _, _, _, _, _) => true
    case TextRange(_, _, _, _, _, start, end, _, _) => start < end
  }
}
