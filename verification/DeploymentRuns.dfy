// Deployments over time: the state file across operations and crashes, its
// encoding, and the results the two validators see.
module DeploymentRuns {
  import opened Text
  import opened DeploymentPolicy
  import opened DeploymentExecutor

  // ---- The state file as text ----

  // The JSON and base64url layers of the header. They are inverse to each
  // other and produce no white space.
  datatype Codec = Codec(encode: State -> string, decode: string -> Option<State>)

  ghost predicate CodecOk(codec: Codec) {
    && (forall s: State :: codec.decode(codec.encode(s)) == Some(s))
    && (forall s: State, c :: c in codec.encode(s) ==> !IsSpace(c))
  }

  const HEADER := "# lodge-state "

  function ImageText(image: Image): string {
    match image case NoImage => "" case Image(repository, digest) => repository + "@sha256:" + digest
  }

  function EncodeOverride(codec: Codec, state: State, stack: Stack): string {
    Encoded(codec, state, stack.service)
  }

  function Encoded(codec: Codec, state: State, service: string): string {
    HEADER + codec.encode(state) + "\n" + Body(service, state.current.image)
  }

  function Body(service: string, image: Image): string {
    "services:\n  " + service + (":\n    image: " + ImageText(image) + "\n")
  }

  function DecodeOverride(codec: Codec, content: string, stack: Stack): Option<State> {
    if '\n' !in content then None
    else
      var line := Before(content, '\n');
      if !(HEADER <= line) then None
      else
        match codec.decode(TrimSpace(line[|HEADER|..]))
        case None => None
        case Some(state) =>
          if StateOk(state, stack) && content == EncodeOverride(codec, state, stack) then Some(state) else None
  }

  // Decoding accepts exactly the encodings of valid states.
  lemma DecodeIffEncoded(codec: Codec, content: string, stack: Stack, state: State)
    requires CodecOk(codec)
    ensures DecodeOverride(codec, content, stack) == Some(state)
            <==> StateOk(state, stack) && content == EncodeOverride(codec, state, stack)
  {
    if content == EncodeOverride(codec, state, stack) {
      var line := HEADER + codec.encode(state);
      var rest := Body(stack.service, state.current.image);
      assert content == line + ['\n'] + rest;
      assert IsSpace('\n');
      BeforeSeparator(line, '\n', rest);
      assert line[|HEADER|..] == codec.encode(state);
    }
  }

  // ---- One stack over many operations ----

  // The state as it was read and the definition that was offered for it.
  ghost predicate Approved(stack: Stack, stored: Option<State>, d: Definition) {
    && StackOk(stack)
    && (stored.Some? ==> StateOk(stored.value, stack))
    && Offered(d, stack, stored.GetOrElse(State("", NO_RELEASE, NO_RELEASE)))
  }

  lemma ApprovedDefinition(stack: Stack, stored: Option<State>, d: Definition)
    requires Approved(stack, stored, d)
    ensures HubAccepts(d) && d.stackKey == stack.key && d.stackTitle == stack.title
    ensures d.currentReleaseId == (match stored case Some(s) => s.current.id case None => "")
    ensures d.kind.Rollback? ==> stored.Some? && Target(d) == stored.value.previous
  {
    var states := match stored case Some(s) => map[stack.key := s] case None => map[];
    assert PolicyOk([stack]) && StatesOk([stack], states);
    assert StateFor(states, stack.key) == stored.GetOrElse(State("", NO_RELEASE, NO_RELEASE));
    ListedExactly([stack], states);
    assert Offered(d, [stack][0], StateFor(states, [stack][0].key));
    ListedDefinitionsAccepted([stack], states, d);
  }

  // An operation ends with an honest result, or dies after some prefix of its
  // effects.
  datatype Ending =
    | Answered(r: Result, effects: seq<Effect>, before: Option<Release>)
    | Crashed(effects: seq<Effect>, before: Option<Release>)

  datatype Operation = Operation(stack: Stack, health: Health, d: Definition, ending: Ending)

  ghost predicate Performs(op: Operation, stored: Option<State>, file: Option<State>) {
    && Approved(op.stack, stored, op.d)
    && (op.ending.before.Some? ==> BeforeOk(stored, op.ending.before.value))
    && OnlyRenames(op.ending.effects, Renames(op.stack, op.d, stored, op.ending.before))
    && file == FileAfter(stored, op.ending.effects)
    && (op.ending.Answered? ==>
         Honest(op.stack, op.health, op.d, stored, op.ending.r, file, op.ending.effects, op.ending.before))
  }

  // Dying earlier is an operation too: what the executor logs of any full run
  // covers every crash inside it.
  lemma PrefixIsCrash(op: Operation, stored: Option<State>, file: Option<State>, cut: nat)
    requires Performs(op, stored, file) && cut <= |op.ending.effects|
    ensures Performs(op.(ending := Crashed(op.ending.effects[..cut], op.ending.before)), stored,
                     FileAfter(stored, op.ending.effects[..cut]))
  {
  }

  lemma PerformingKeepsStateValid(op: Operation, stored: Option<State>, file: Option<State>)
    requires Performs(op, stored, file)
    ensures file.Some? ==> StateOk(file.value, op.stack)
  {
    ApprovedDefinition(op.stack, stored, op.d);
    assert ReleaseOk(Target(op.d));
    FileAfterIsStoredOrRenamed(stored, op.ending.effects);
  }

  lemma {:induction false} FileAfterIsStoredOrRenamed(stored: Option<State>, effects: seq<Effect>)
    ensures FileAfter(stored, effects) == stored
            || exists i :: 0 <= i < |effects| && effects[i].Renamed? && FileAfter(stored, effects) == Some(effects[i].state)
  {
    if effects != [] {
      FileAfterIsStoredOrRenamed(stored, effects[..|effects| - 1]);
    }
  }

  // A run of one stack, from a host without a state file. The policy of the
  // stack may change from one operation to the next; its key stays.
  ghost predicate Run(key: string, files: seq<Option<State>>, ops: seq<Operation>) {
    && |files| == |ops| + 1
    && files[0] == None
    && forall i :: 0 <= i < |ops| ==> ops[i].stack.key == key && Performs(ops[i], files[i], files[i + 1])
  }

  // The committed file is always absent or a valid state whose current and
  // previous images differ.
  lemma {:induction false} FileStaysValid(key: string, files: seq<Option<State>>, ops: seq<Operation>, n: nat)
    requires Run(key, files, ops) && n < |files|
    ensures files[n].Some? ==>
      && files[n].value.stackKey == key
      && ReleaseOk(files[n].value.current)
      && (files[n].value.previous == NO_RELEASE
          || (ReleaseOk(files[n].value.previous) && !SameDigest(files[n].value.current.image, files[n].value.previous.image)))
  {
    if n > 0 {
      PerformingKeepsStateValid(ops[n - 1], files[n - 1], files[n]);
    }
  }

  // Two successful rollbacks in a row restore current and previous.
  lemma TwoRollbacksRestore(key: string, files: seq<Option<State>>, ops: seq<Operation>, n: nat)
    requires Run(key, files, ops) && n + 2 < |files|
    requires ops[n].d.kind.Rollback? && ops[n].ending.Answered? && ops[n].ending.r.ok
    requires ops[n + 1].d.kind.Rollback? && ops[n + 1].ending.Answered? && ops[n + 1].ending.r.ok
    ensures files[n].Some? && files[n + 2] == files[n]
    ensures files[n + 1] == Some(State(key, files[n].value.previous, files[n].value.current))
  {
    assert Performs(ops[n], files[n], files[n + 1]) && Performs(ops[n + 1], files[n + 1], files[n + 2]);
    ApprovedDefinition(ops[n].stack, files[n], ops[n].d);
    ApprovedDefinition(ops[n + 1].stack, files[n + 1], ops[n + 1].d);
    FileStaysValid(key, files, ops, n);
  }

  // ---- The file as text over many operations ----

  // Every rename puts a file in place that was encoded for the stack as it is
  // at that operation.
  function TextAfter(codec: Codec, stack: Stack, text: Option<string>, effects: seq<Effect>): Option<string> {
    if effects == [] then text
    else if effects[|effects| - 1].Renamed? then Some(EncodeOverride(codec, effects[|effects| - 1].state, stack))
    else TextAfter(codec, stack, text, effects[..|effects| - 1])
  }

  // Reading the file before an operation: refused, absent, or a state.
  function Load(codec: Codec, text: Option<string>, stack: Stack): Option<Option<State>> {
    match text
    case None => Some(None)
    case Some(content) => if DecodeOverride(codec, content, stack).Some? then Some(DecodeOverride(codec, content, stack)) else None
  }

  // A run with its texts: an operation starts only if the file can be read.
  ghost predicate TextRun(codec: Codec, key: string, texts: seq<Option<string>>, files: seq<Option<State>>, ops: seq<Operation>) {
    && Run(key, files, ops)
    && |texts| == |files| && texts[0] == None
    && forall i :: 0 <= i < |ops| ==>
         && Load(codec, texts[i], ops[i].stack) == Some(files[i])
         && texts[i + 1] == TextAfter(codec, ops[i].stack, texts[i], ops[i].ending.effects)
  }

  predicate Writes(effects: seq<Effect>) {
    exists i | 0 <= i < |effects| :: effects[i].Renamed?
  }

  // The service the file in place was written for.
  function LastService(ops: seq<Operation>, n: nat): Option<string>
    requires n <= |ops|
  {
    if n == 0 then None
    else if Writes(ops[n - 1].ending.effects) then Some(ops[n - 1].stack.service)
    else LastService(ops, n - 1)
  }

  lemma {:induction false} TextFollowsFile(codec: Codec, stack: Stack, text: Option<string>, stored: Option<State>, effects: seq<Effect>)
    ensures if Writes(effects)
            then FileAfter(stored, effects).Some?
                 && TextAfter(codec, stack, text, effects) == Some(EncodeOverride(codec, FileAfter(stored, effects).value, stack))
            else FileAfter(stored, effects) == stored && TextAfter(codec, stack, text, effects) == text
  {
    if effects != [] {
      var n := |effects| - 1;
      TextFollowsFile(codec, stack, text, stored, effects[..n]);
      assert forall i | 0 <= i < n :: effects[..n][i] == effects[i];
    }
  }

  // The stored text is that of the state, written for the last service.
  predicate WrittenFor(codec: Codec, text: Option<string>, file: Option<State>, service: Option<string>) {
    match service
    case None => text == None && file == None
    case Some(name) =>
      file.Some? && text == Some(Encoded(codec, file.value, name))
  }

  lemma FileOfRun(key: string, files: seq<Option<State>>, ops: seq<Operation>, n: nat)
    requires Run(key, files, ops) && n < |ops|
    ensures files[n + 1] == FileAfter(files[n], ops[n].ending.effects)
  {
    assert Performs(ops[n], files[n], files[n + 1]);
  }

  lemma {:induction false} TextIsWritten(codec: Codec, key: string, texts: seq<Option<string>>, files: seq<Option<State>>, ops: seq<Operation>, n: nat)
    requires TextRun(codec, key, texts, files, ops) && n < |files|
    ensures WrittenFor(codec, texts[n], files[n], LastService(ops, n))
  {
    if n > 0 {
      TextIsWritten(codec, key, texts, files, ops, n - 1);
      var op := ops[n - 1];
      FileOfRun(key, files, ops, n - 1);
      TextFollowsFile(codec, op.stack, texts[n - 1], files[n - 1], op.ending.effects);
    }
  }

  lemma EncodingsDiffer(codec: Codec, s: State, a: string, t: State, b: string)
    requires CodecOk(codec) && Encoded(codec, s, a) == Encoded(codec, t, b)
    ensures s == t && a == b
  {
    var x, y := HEADER + codec.encode(s), HEADER + codec.encode(t);
    assert IsSpace('\n') && '\n' !in HEADER;
    SameLine(x, Body(a, s.current.image), y, Body(b, t.current.image));
    assert codec.encode(s) == x[|HEADER|..] == codec.encode(t);
    assert codec.decode(codec.encode(s)) == Some(s) && codec.decode(codec.encode(t)) == Some(t);
    SameMiddle("services:\n  ", a, b, ":\n    image: " + ImageText(s.current.image) + "\n");
  }

  lemma SameLine(x: string, p: string, y: string, q: string)
    requires x + "\n" + p == y + "\n" + q && '\n' !in x && '\n' !in y
    ensures x == y && p == q
  {
    BeforeSeparator(x, '\n', p);
    BeforeSeparator(y, '\n', q);
    assert p == (x + "\n" + p)[|x| + 1..] && q == (y + "\n" + q)[|y| + 1..];
  }

  lemma SameMiddle(head: string, a: string, b: string, tail: string)
    requires head + a + tail == head + b + tail
    ensures a == b
  {
    var t := head + a + tail;
    assert |a| == |b|;
    assert a == t[|head|..|head| + |a|] && b == t[|head|..|head| + |b|];
  }

  // After any sequence of operations and crashes the file reads back as the
  // state, unless the policy has renamed the service since it was written:
  // then it is refused, and no operation of the stack can start.
  lemma TextReadsBack(codec: Codec, key: string, texts: seq<Option<string>>, files: seq<Option<State>>, ops: seq<Operation>, n: nat, stack: Stack)
    requires CodecOk(codec) && TextRun(codec, key, texts, files, ops) && n < |files| && stack.key == key
    ensures Load(codec, texts[n], stack) ==
            if LastService(ops, n).None? || LastService(ops, n).value == stack.service then Some(files[n]) else None
  {
    TextIsWritten(codec, key, texts, files, ops, n);
    FileStaysValid(key, files, ops, n);
    if LastService(ops, n).Some? {
      var service, state := LastService(ops, n).value, files[n].value;
      var content := Encoded(codec, state, service);
      if service == stack.service {
        DecodeIffEncoded(codec, content, stack, state);
      } else if DecodeOverride(codec, content, stack).Some? {
        var other := DecodeOverride(codec, content, stack).value;
        DecodeIffEncoded(codec, content, stack, other);
        EncodingsDiffer(codec, state, service, other, stack.service);
      }
    }
  }

  // ---- Results on their way to the operator ----

  predicate ValidErrorKind(kind: string, ok: bool) {
    if ok then kind == ""
    else kind in ERROR_KINDS
  }

  predicate TextOk(text: string, maximum: nat) {
    !Blank(text) && |text| <= maximum && !HasControl(text)
  }

  predicate IdentityOk(r: Result, d: Definition) {
    && r.actionId == d.id && r.stackKey == d.stackKey && r.kind == d.kind && r.releaseId == d.releaseId
    && (d.currentReleaseId != "" ==> r.previousReleaseId == d.currentReleaseId)
    && (r.previousReleaseId != "" ==> ReleasePattern(r.previousReleaseId))
    && (r.ok <==> r.errorKind == "") && ValidErrorKind(r.errorKind, r.ok)
    && !(r.ok && r.rollbackPerformed) && !(r.errorKind == "rollback_failed" && r.rollbackPerformed)
  }

  predicate AgentAcceptsResult(r: Result, d: Definition) {
    IdentityOk(r, d) && !HasControl(r.summary) && |r.summary| <= 200
  }

  predicate HubAcceptsResult(r: Result, d: Definition) {
    && IdentityOk(r, d)
    && if r.ok || r.rollbackPerformed then TextOk(r.summary, 200) else r.summary == "" || TextOk(r.summary, 200)
  }

  // Every result the executor produces passes the agent's and the hub's check.
  lemma HonestResultsAccepted(op: Operation, stored: Option<State>, file: Option<State>)
    requires Performs(op, stored, file) && op.ending.Answered?
    ensures AgentAcceptsResult(op.ending.r, op.d) && HubAcceptsResult(op.ending.r, op.d)
  {
    var r, d, stack := op.ending.r, op.d, op.stack;
    ApprovedDefinition(stack, stored, d);
    HonestResultShape(stack, op.health, d, stored, r, file, op.ending.effects, op.ending.before);
    if r.ok {
      SuccessAccepted(d, stack, r);
    } else {
      FailureAccepted(d, r);
    }
  }

  lemma SuccessAccepted(d: Definition, stack: Stack, r: Result)
    requires TitleOk(stack.title) && TitleOk(d.releaseTitle) && d.stackKey == stack.key
    requires r == Success(d, stack, r.previousReleaseId, true) || r == Success(d, stack, r.previousReleaseId, false)
    requires r.previousReleaseId != "" ==> ReleasePattern(r.previousReleaseId)
    requires d.currentReleaseId != "" ==> r.previousReleaseId == d.currentReleaseId
    ensures AgentAcceptsResult(r, d) && HubAcceptsResult(r, d)
  {
    SummaryOk(d, stack, r.previousReleaseId, true);
    SummaryOk(d, stack, r.previousReleaseId, false);
  }

  lemma FailureAccepted(d: Definition, r: Result)
    requires r == Fail(d, r.errorKind, r.rollbackPerformed, r.previousReleaseId)
    requires r.errorKind in ERROR_KINDS && (r.rollbackPerformed ==> r.errorKind in AFTER_UP)
    requires r.previousReleaseId != "" ==> ReleasePattern(r.previousReleaseId)
    requires d.currentReleaseId != "" ==> r.previousReleaseId == d.currentReleaseId
    ensures AgentAcceptsResult(r, d) && HubAcceptsResult(r, d)
  {
    RollbackSummaryOk();
  }

  const ERROR_KINDS := {"preflight_failed", "image_prepare_failed", "current_release_unknown", "state_prepare_failed",
                        "compose_apply_failed", "health_verification_failed", "state_commit_failed", "rollback_failed"}

  lemma HonestResultShape(stack: Stack, health: Health, d: Definition, stored: Option<State>,
                          r: Result, file: Option<State>, effects: seq<Effect>, before: Option<Release>)
    requires Honest(stack, health, d, stored, r, file, effects, before)
    ensures r.previousReleaseId == match before case None => d.currentReleaseId case Some(current) => current.id
    ensures before.Some? ==> BeforeOk(stored, before.value)
    ensures if r.ok then r == Success(d, stack, r.previousReleaseId, true) || r == Success(d, stack, r.previousReleaseId, false)
            else r == Fail(d, r.errorKind, r.rollbackPerformed, r.previousReleaseId)
                 && r.errorKind in ERROR_KINDS && (r.rollbackPerformed ==> r.errorKind in AFTER_UP)
  {
  }

  lemma RollbackSummaryOk()
    ensures TextOk(ROLLBACK_SUMMARY, 200)
  {
    BlankIffAllSpace(ROLLBACK_SUMMARY);
    assert ROLLBACK_SUMMARY[0] in ROLLBACK_SUMMARY && !IsSpace('部');
    NoControl(ROLLBACK_SUMMARY);
  }

  // Text that stays above the ASCII and Latin-1 control ranges.
  lemma NoControl(text: string)
    requires forall i | 0 <= i < |text| :: text[i] > '\U{A0}'
    ensures !HasControl(text)
  {
  }

  lemma SummaryOk(d: Definition, stack: Stack, previousReleaseId: string, sameDigest: bool)
    requires TitleOk(stack.title) && TitleOk(d.releaseTitle)
    ensures TextOk(Success(d, stack, previousReleaseId, sameDigest).summary, 200)
  {
    var middle := if sameDigest then " 已运行目标版本 " else if d.kind.Rollback? then " 已回滚到 " else " 已部署 ";
    var tail := "，健康验证通过";
    var text := stack.title + middle + d.releaseTitle + tail;
    BlankIffAllSpace(stack.title);
    BlankIffAllSpace(text);
    assert forall c :: c in stack.title ==> c in text;
    forall c | c in text ensures !IsControl(c) {
      assert c in stack.title || c in middle || c in d.releaseTitle || c in tail;
    }
  }
}
