// Approved releases, stored state, and the checks of definitions and results
// (internal/agent/deployment_policy*.go, internal/hub/deployment_client.go).
module DeploymentPolicy {
  import opened Text

  // An immutable image reference "<repository>@sha256:<digest>".
  datatype Image = NoImage | Image(repository: string, digest: string)
  datatype Release = Release(id: string, title: string, image: Image)
  datatype State = State(stackKey: string, current: Release, previous: Release)
  datatype Stack = Stack(key: string, title: string, service: string, releases: seq<Release>)
  datatype Kind = Deploy | Rollback

  datatype Definition = Definition(
    id: string,
    stackKey: string,
    stackTitle: string,
    kind: Kind,
    releaseId: string,
    releaseTitle: string,
    image: Image,
    currentReleaseId: string,
    previousReleaseId: string,
    description: string,
    confirmation: string)

  datatype Result = Result(
    actionId: string,
    stackKey: string,
    kind: Kind,
    releaseId: string,
    previousReleaseId: string,
    ok: bool,
    rollbackPerformed: bool,
    errorKind: string,
    summary: string)

  const NO_RELEASE := Release("", "", NoImage)

  predicate IsLowerOrDigit(c: char) { 'a' <= c <= 'z' || '0' <= c <= '9' }
  predicate IsAlphanumeric(c: char) { IsLowerOrDigit(c) || 'A' <= c <= 'Z' }
  predicate IsMark(c: char) { c == '_' || c == '.' || c == '-' }

  // ^[a-z0-9][a-z0-9_.-]{0,63}$
  predicate KeyPattern(s: string) {
    1 <= |s| <= 64 && IsLowerOrDigit(s[0]) && forall i | 0 <= i < |s| :: IsLowerOrDigit(s[i]) || IsMark(s[i])
  }

  // ^[A-Za-z0-9][A-Za-z0-9_.-]{0,63}$
  predicate ReleasePattern(s: string) {
    1 <= |s| <= 64 && IsAlphanumeric(s[0]) && forall i | 0 <= i < |s| :: IsAlphanumeric(s[i]) || IsMark(s[i])
  }

  predicate TitleOk(title: string) {
    !Blank(title) && |title| <= 80 && !HasControl(title)
  }

  predicate ReleaseOk(r: Release) {
    ReleasePattern(r.id) && TitleOk(r.title) && r.image.Image?
  }

  predicate SameDigest(a: Image, b: Image) {
    Digest(a) == Digest(b)
  }

  function Digest(image: Image): string {
    match image case NoImage => "" case Image(_, digest) => digest
  }

  predicate StackOk(stack: Stack) {
    && KeyPattern(stack.key) && TitleOk(stack.title)
    && 1 <= |stack.releases| <= 32
    && (forall i | 0 <= i < |stack.releases| ::
         ReleaseOk(stack.releases[i]) && !EqualFold(stack.releases[i].id, "external"))
    && (forall i, j | 0 <= i < j < |stack.releases| ::
         stack.releases[i].id != stack.releases[j].id && !SameDigest(stack.releases[i].image, stack.releases[j].image))
  }

  predicate PolicyOk(stacks: seq<Stack>) {
    && |stacks| <= 32
    && (forall i | 0 <= i < |stacks| :: StackOk(stacks[i]))
    && (forall i, j | 0 <= i < j < |stacks| :: stacks[i].key != stacks[j].key)
  }

  // validateDeploymentState
  predicate StateOk(state: State, stack: Stack) {
    && state.stackKey == stack.key
    && ReleaseOk(state.current)
    && (state.previous == NO_RELEASE || ReleaseOk(state.previous))
    && (state.previous.image.Image? ==> !SameDigest(state.current.image, state.previous.image))
  }

  predicate StatesOk(stacks: seq<Stack>, states: map<string, State>) {
    forall i | 0 <= i < |stacks| && stacks[i].key in states :: StateOk(states[stacks[i].key], stacks[i])
  }

  // A missing state file reads as the empty state.
  function StateFor(states: map<string, State>, key: string): State {
    if key in states then states[key] else State("", NO_RELEASE, NO_RELEASE)
  }

  function ActionId(kind: Kind, stackKey: string, releaseId: string): string {
    if kind.Rollback? then "rollback:" + stackKey else "deploy:" + stackKey + ":" + releaseId
  }

  function Description(kind: Kind, stackTitle: string, releaseTitle: string): string {
    (if kind.Rollback? then "回滚到上一个已验证版本：" else "部署不可变镜像并验证；失败自动回滚：") + stackTitle + " / " + releaseTitle
  }

  function Confirmation(kind: Kind, stackTitle: string, releaseTitle: string): string {
    (if kind.Rollback? then "确认回滚 " else "确认部署 ") + stackTitle + " 到 " + releaseTitle
  }

  function DefinitionFor(kind: Kind, stack: Stack, state: State, release: Release): Definition {
    Definition(
      ActionId(kind, stack.key, release.id), stack.key, stack.title, kind,
      release.id, release.title, release.image, state.current.id, state.previous.id,
      Description(kind, stack.title, release.title), Confirmation(kind, stack.title, release.title))
  }

  function DeployDefinitions(stack: Stack, state: State, releases: seq<Release>): seq<Definition> {
    if releases == [] then []
    else
      var last := releases[|releases| - 1];
      DeployDefinitions(stack, state, releases[..|releases| - 1])
      + (if state.current.image == last.image then [] else [DefinitionFor(Deploy, stack, state, last)])
  }

  function StackDefinitions(stack: Stack, state: State): seq<Definition> {
    DeployDefinitions(stack, state, stack.releases)
    + (if state.previous.image.NoImage? then [] else [DefinitionFor(Rollback, stack, state, state.previous)])
  }

  function Definitions(stacks: seq<Stack>, states: map<string, State>): seq<Definition> {
    if stacks == [] then []
    else
      var last := stacks[|stacks| - 1];
      Definitions(stacks[..|stacks| - 1], states) + StackDefinitions(last, StateFor(states, last.key))
  }

  method DeploymentDefinitions(stacks: seq<Stack>, states: map<string, State>) returns (definitions: seq<Definition>)
    ensures definitions == Definitions(stacks, states)
  {
    definitions := [];
    for i := 0 to |stacks|
      invariant definitions == Definitions(stacks[..i], states)
    {
      var stack := stacks[i];
      var state := StateFor(states, stack.key);
      ghost var before := definitions;
      for j := 0 to |stack.releases|
        invariant definitions == before + DeployDefinitions(stack, state, stack.releases[..j])
      {
        assert stack.releases[..j + 1][..j] == stack.releases[..j];
        if state.current.image != stack.releases[j].image {
          definitions := definitions + [DefinitionFor(Deploy, stack, state, stack.releases[j])];
        }
      }
      assert stack.releases[..|stack.releases|] == stack.releases;
      if state.previous.image.Image? {
        definitions := definitions + [DefinitionFor(Rollback, stack, state, state.previous)];
      }
      assert stacks[..i + 1][..i] == stacks[..i];
    }
    assert stacks[..|stacks|] == stacks;
  }

  // ---- The two definition validators ----

  predicate AgentAccepts(d: Definition) {
    && KeyPattern(d.stackKey) && TitleOk(d.stackTitle)
    && ReleasePattern(d.releaseId) && TitleOk(d.releaseTitle) && d.image.Image?
    && (d.currentReleaseId != "" ==> ReleasePattern(d.currentReleaseId))
    && (d.previousReleaseId != "" ==> ReleasePattern(d.previousReleaseId))
    && (d.kind.Deploy? ==> !EqualFold(d.releaseId, "external"))
    && d.id == ActionId(d.kind, d.stackKey, d.releaseId)
    && d.description == Description(d.kind, d.stackTitle, d.releaseTitle)
    && d.confirmation == Confirmation(d.kind, d.stackTitle, d.releaseTitle)
  }

  // The hub checks the same and that the id has no slash.
  predicate HubAccepts(d: Definition) {
    AgentAccepts(d) && '/' !in d.id
  }

  lemma {:induction false} DeployDefinitionsMembers(stack: Stack, state: State, releases: seq<Release>)
    ensures forall d :: d in DeployDefinitions(stack, state, releases) <==>
      exists i :: 0 <= i < |releases| && releases[i].image != state.current.image && d == DefinitionFor(Deploy, stack, state, releases[i])
  {
    if releases != [] {
      var n := |releases| - 1;
      DeployDefinitionsMembers(stack, state, releases[..n]);
      forall d | d in DeployDefinitions(stack, state, releases)
        ensures exists i :: 0 <= i < |releases| && releases[i].image != state.current.image && d == DefinitionFor(Deploy, stack, state, releases[i])
      {
        if d in DeployDefinitions(stack, state, releases[..n]) {
          var i :| 0 <= i < n && releases[..n][i].image != state.current.image && d == DefinitionFor(Deploy, stack, state, releases[..n][i]);
          assert releases[i] == releases[..n][i];
        }
      }
      forall i | 0 <= i < |releases| && releases[i].image != state.current.image
        ensures DefinitionFor(Deploy, stack, state, releases[i]) in DeployDefinitions(stack, state, releases)
      {
        if i < n {
          assert releases[..n][i] == releases[i];
        }
      }
    }
  }

  lemma StackOffers(stack: Stack, state: State, d: Definition)
    ensures d in StackDefinitions(stack, state) <==> Offered(d, stack, state)
  {
    DeployDefinitionsMembers(stack, state, stack.releases);
  }

  lemma {:induction false} ListedAmong(stacks: seq<Stack>, states: map<string, State>, d: Definition)
    ensures d in Definitions(stacks, states) <==>
      exists i :: 0 <= i < |stacks| && Offered(d, stacks[i], StateFor(states, stacks[i].key))
  {
    if stacks != [] {
      var n := |stacks| - 1;
      ListedAmong(stacks[..n], states, d);
      StackOffers(stacks[n], StateFor(states, stacks[n].key), d);
      assert forall i :: 0 <= i < n ==> stacks[..n][i] == stacks[i];
    }
  }

  // Exactly the releases that are not running, plus a rollback when there is
  // something to roll back to, are offered.
  lemma ListedExactly(stacks: seq<Stack>, states: map<string, State>)
    ensures forall d :: d in Definitions(stacks, states) <==>
      exists i :: 0 <= i < |stacks| && Offered(d, stacks[i], StateFor(states, stacks[i].key))
  {
    forall d
      ensures d in Definitions(stacks, states) <==>
        exists i :: 0 <= i < |stacks| && Offered(d, stacks[i], StateFor(states, stacks[i].key))
    {
      ListedAmong(stacks, states, d);
    }
  }

  ghost predicate Offered(d: Definition, stack: Stack, state: State) {
    || (state.previous.image.Image? && d == DefinitionFor(Rollback, stack, state, state.previous))
    || exists i :: 0 <= i < |stack.releases| && stack.releases[i].image != state.current.image
                   && d == DefinitionFor(Deploy, stack, state, stack.releases[i])
  }

  // What a definition says of its stack, the stored state and the release.
  predicate Names(d: Definition, stack: Stack, state: State, r: Release) {
    && d.stackKey == stack.key && d.stackTitle == stack.title
    && d.releaseId == r.id && d.releaseTitle == r.title && d.image == r.image
    && d.currentReleaseId == state.current.id && d.previousReleaseId == state.previous.id
  }

  predicate OffersRollback(d: Definition, stack: Stack, state: State) {
    && d.kind.Rollback? && Names(d, stack, state, state.previous) && d.id == "rollback:" + stack.key
    && d.description == "回滚到上一个已验证版本：" + stack.title + " / " + state.previous.title
    && d.confirmation == "确认回滚 " + stack.title + " 到 " + state.previous.title
  }

  predicate OffersDeploy(d: Definition, stack: Stack, state: State, r: Release) {
    && d.kind.Deploy? && Names(d, stack, state, r) && d.id == "deploy:" + stack.key + ":" + r.id
    && d.description == "部署不可变镜像并验证；失败自动回滚：" + stack.title + " / " + r.title
    && d.confirmation == "确认部署 " + stack.title + " 到 " + r.title
  }

  predicate Offers(d: Definition, stack: Stack, state: State) {
    || (state.previous.image.Image? && OffersRollback(d, stack, state))
    || (exists i | 0 <= i < |stack.releases| :: stack.releases[i].image != state.current.image && OffersDeploy(d, stack, state, stack.releases[i]))
  }

  lemma OfferMeans(d: Definition, stack: Stack, state: State)
    ensures Offered(d, stack, state) <==> Offers(d, stack, state)
  {
    assert d == DefinitionFor(Rollback, stack, state, state.previous) <==> OffersRollback(d, stack, state);
    forall i | 0 <= i < |stack.releases|
      ensures d == DefinitionFor(Deploy, stack, state, stack.releases[i]) <==> OffersDeploy(d, stack, state, stack.releases[i])
    {
    }
  }

  // The same over the fields and texts of a definition.
  lemma ListedMeans(stacks: seq<Stack>, states: map<string, State>, d: Definition)
    ensures d in Definitions(stacks, states) <==>
      exists i | 0 <= i < |stacks| :: Offers(d, stacks[i], StateFor(states, stacks[i].key))
  {
    ListedExactly(stacks, states);
    forall i | 0 <= i < |stacks|
      ensures Offered(d, stacks[i], StateFor(states, stacks[i].key)) <==> Offers(d, stacks[i], StateFor(states, stacks[i].key))
    {
      OfferMeans(d, stacks[i], StateFor(states, stacks[i].key));
    }
  }

  lemma DefinitionAccepted(kind: Kind, stack: Stack, state: State, release: Release)
    requires StackOk(stack) && ReleaseOk(release) && (kind.Deploy? ==> !EqualFold(release.id, "external"))
    requires state == State("", NO_RELEASE, NO_RELEASE) || StateOk(state, stack)
    ensures AgentAccepts(DefinitionFor(kind, stack, state, release)) && HubAccepts(DefinitionFor(kind, stack, state, release))
  {
    var id := ActionId(kind, stack.key, release.id);
    forall k | 0 <= k < |id|
      ensures id[k] != '/'
    {
    }
  }

  // Everything the agent lists passes its own validator and the hub's.
  lemma ListedDefinitionsAccepted(stacks: seq<Stack>, states: map<string, State>, d: Definition)
    requires PolicyOk(stacks) && StatesOk(stacks, states) && d in Definitions(stacks, states)
    ensures AgentAccepts(d) && HubAccepts(d)
  {
    ListedExactly(stacks, states);
    var i :| 0 <= i < |stacks| && Offered(d, stacks[i], StateFor(states, stacks[i].key));
    var stack := stacks[i];
    var state := StateFor(states, stack.key);
    assert StackOk(stack) && (stack.key in states ==> StateOk(states[stack.key], stack));
    if d.kind.Deploy? {
      var j :| 0 <= j < |stack.releases| && d == DefinitionFor(Deploy, stack, state, stack.releases[j]);
      DefinitionAccepted(Deploy, stack, state, stack.releases[j]);
    } else {
      DefinitionAccepted(Rollback, stack, state, state.previous);
    }
  }

  // What an accepted definition says, text by text, and that both validators
  // accept the same definitions.
  predicate Worded(d: Definition) {
    if d.kind.Rollback? then
      && d.id == "rollback:" + d.stackKey
      && d.description == "回滚到上一个已验证版本：" + d.stackTitle + " / " + d.releaseTitle
      && d.confirmation == "确认回滚 " + d.stackTitle + " 到 " + d.releaseTitle
    else
      && d.id == "deploy:" + d.stackKey + ":" + d.releaseId && !EqualFold(d.releaseId, "external")
      && d.description == "部署不可变镜像并验证；失败自动回滚：" + d.stackTitle + " / " + d.releaseTitle
      && d.confirmation == "确认部署 " + d.stackTitle + " 到 " + d.releaseTitle
  }

  lemma AcceptedMeans(d: Definition)
    ensures AgentAccepts(d) <==>
      && Worded(d) && d.image.Image?
      && KeyPattern(d.stackKey) && TitleOk(d.stackTitle) && ReleasePattern(d.releaseId) && TitleOk(d.releaseTitle)
      && (d.currentReleaseId == "" || ReleasePattern(d.currentReleaseId))
      && (d.previousReleaseId == "" || ReleasePattern(d.previousReleaseId))
    ensures HubAccepts(d) <==> AgentAccepts(d)
  {
  }

  // The id determines the stack, the kind and, for a deployment, the release.
  lemma ActionIdInjective(kind1: Kind, stack1: string, release1: string, kind2: Kind, stack2: string, release2: string)
    requires KeyPattern(stack1) && KeyPattern(stack2)
    requires ActionId(kind1, stack1, release1) == ActionId(kind2, stack2, release2)
    ensures kind1 == kind2 && stack1 == stack2 && (kind1.Deploy? ==> release1 == release2)
  {
    var id := ActionId(kind1, stack1, release1);
    assert id[0] == (if kind1.Rollback? then 'r' else 'd');
    if kind1.Rollback? {
      assert stack1 == id[9..] && stack2 == id[9..];
    } else {
      assert id[7..] == stack1 + [':'] + release1 == stack2 + [':'] + release2;
      BeforeSeparator(stack1, ':', release1);
      BeforeSeparator(stack2, ':', release2);
      assert release1 == id[7..][|stack1| + 1..] && release2 == id[7..][|stack2| + 1..];
    }
  }

  lemma ListedUnderItsStack(stacks: seq<Stack>, states: map<string, State>, d: Definition)
    requires PolicyOk(stacks) && d in Definitions(stacks, states)
    ensures exists k :: 0 <= k < |stacks| && d.stackKey == stacks[k].key
    ensures KeyPattern(d.stackKey) && d.id == ActionId(d.kind, d.stackKey, d.releaseId)
  {
    ListedExactly(stacks, states);
    var k :| 0 <= k < |stacks| && Offered(d, stacks[k], StateFor(states, stacks[k].key));
    assert StackOk(stacks[k]) && d.stackKey == stacks[k].key;
  }

  lemma StackDefinitionShape(stack: Stack, state: State, d: Definition)
    requires d in StackDefinitions(stack, state)
    ensures d.stackKey == stack.key && d.id == ActionId(d.kind, d.stackKey, d.releaseId)
  {
    DeployDefinitionsMembers(stack, state, stack.releases);
  }

  // No two listed definitions share an id.
  lemma {:induction false} ListedOnce(stacks: seq<Stack>, states: map<string, State>, i: nat, j: nat)
    requires PolicyOk(stacks) && StatesOk(stacks, states) && i < j < |Definitions(stacks, states)|
    ensures Definitions(stacks, states)[i].id != Definitions(stacks, states)[j].id
  {
    var n := |stacks| - 1;
    var rest, last := stacks[..n], stacks[n];
    var state := StateFor(states, last.key);
    var front, back := Definitions(rest, states), StackDefinitions(last, state);
    assert Definitions(stacks, states) == front + back;
    assert PolicyOk(rest) && StatesOk(rest, states);
    if j < |front| {
      ListedOnce(rest, states, i, j);
    } else if i < |front| {
      var d1, d2 := front[i], back[j - |front|];
      ListedUnderItsStack(rest, states, d1);
      StackDefinitionShape(last, state, d2);
      var k :| 0 <= k < n && d1.stackKey == rest[k].key;
      assert stacks[k].key != last.key && StackOk(last);
      if d1.id == d2.id {
        ActionIdInjective(d1.kind, d1.stackKey, d1.releaseId, d2.kind, d2.stackKey, d2.releaseId);
      }
    } else {
      StackListedOnce(last, state, |last.releases|);
      assert back[i - |front|].id != back[j - |front|].id;
    }
  }

  predicate DistinctIds(ds: seq<Definition>) {
    forall i, j :: 0 <= i < j < |ds| ==> ds[i].id != ds[j].id
  }

  lemma {:induction false} StackListedOnce(stack: Stack, state: State, n: nat)
    requires StackOk(stack) && n <= |stack.releases|
    ensures DistinctIds(DeployDefinitions(stack, state, stack.releases[..n]))
    ensures n == |stack.releases| ==> DistinctIds(StackDefinitions(stack, state))
  {
    var releases := stack.releases[..n];
    var ds := DeployDefinitions(stack, state, releases);
    DeployDefinitionsMembers(stack, state, releases);
    if n > 0 {
      StackListedOnce(stack, state, n - 1);
      assert releases[..n - 1] == stack.releases[..n - 1];
      assert DistinctIds(DeployDefinitions(stack, state, releases[..n - 1]));
      var front := DeployDefinitions(stack, state, releases[..n - 1]);
      DeployDefinitionsMembers(stack, state, releases[..n - 1]);
      forall i, j | 0 <= i < j < |ds| ensures ds[i].id != ds[j].id {
        assert ds[i] == front[i];
        if j < |front| {
          assert ds[j] == front[j];
          assert front[i].id != front[j].id;
        } else {
          assert ds[j] == DefinitionFor(Deploy, stack, state, releases[n - 1]);
          assert front[i] in front;
          var k :| 0 <= k < n - 1 && front[i] == DefinitionFor(Deploy, stack, state, releases[..n - 1][k]);
          assert releases[..n - 1][k] == stack.releases[k] && releases[n - 1] == stack.releases[n - 1];
          var d := DefinitionFor(Deploy, stack, state, stack.releases[k]);
          assert d.id == ActionId(Deploy, stack.key, stack.releases[k].id);
          assert front[i] == d;
          assert ds[j].id == ActionId(Deploy, stack.key, stack.releases[n - 1].id);
          if ds[i].id == ds[j].id {
            ActionIdInjective(Deploy, stack.key, stack.releases[k].id, Deploy, stack.key, stack.releases[n - 1].id);
          }
        }
      }
    }
    if n == |stack.releases| {
      assert releases == stack.releases;
      forall i | 0 <= i < |ds| ensures |ds[i].id| > 0 && ds[i].id[0] == 'd' {
        assert ds[i] in ds;
      }
    }
  }
}
