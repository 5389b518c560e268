/** Tokens and jobs: when there are tokens enough for all jobs, and in which order
    the jobs run, whichever tokens fire. */
module RunnerProperties {
  import opened Wrappers
  import opened Prefixes
  import opened Queues
  import opened QueueProperties
  import opened PopManyProperties
  import opened Runners

  datatype Step<A> =
    | Enqueued(job: QueuedJob, args: A, token: Option<TokenId>)
    | Fired(at: nat)
    | Cancelled(jobId: string, id: Option<StorageId>)

  function After<A>(r: Runner<A>, step: Step<A>): Runner<A> {
    match step
    case Enqueued(job, args, token) => Enqueue(r, job, args, token)
    case Fired(at) => if at < |r.tokens| then Fire(r, at) else r
    case Cancelled(jobId, id) => CancelJob(r, jobId, id)
  }

  function Reach<A>(steps: seq<Step<A>>): Runner<A> {
    if steps == [] then EmptyRunner() else After(Reach(steps[..|steps| - 1]), steps[|steps| - 1])
  }

  lemma PopKeepsValidHere<A>(q: Queue<A>, id: StorageId)
    requires q.Valid()
    ensures PopJob(q, id).0.Valid() && PopJob(q, id).0.list == RemoveFirst(q.list, id)
  {
    PopKeepsValid(q, id);
  }

  lemma NextRemovesHead<A>(q: Queue<A>)
    requires q.Valid()
    ensures Next(q).0.Valid()
    ensures Next(q).0.list == if q.list == [] then [] else RemoveFirst(q.list, q.list[0])
  {
    if q.list != [] {
      NextIsPopHead(q);
      PopKeepsValid(q, q.list[0]);
    }
  }

  // --- tokens in the order they were made ---

  function Owners(tokens: seq<Token>): seq<StorageId> {
    seq(|tokens|, i requires 0 <= i < |tokens| => tokens[i].owner)
  }

  /** The listed jobs are owners of pending tokens, in the order of the tokens, and
      a default token carries the name of its owner. */
  ghost predicate Covered<A>(r: Runner<A>) {
    && r.queue.Valid()
    && Distinct(Owners(r.tokens))
    && (forall token :: token in r.tokens && token.id.Default? ==> token.owner.uuid == token.id.jobId)
    && r.queue.list == Among(Owners(r.tokens), IdsOf(r.queue.list), true)
  }

  /** The tokens fire in order, a new job is not the owner of a pending token, and
      a cancelled job is given with its own storage id. */
  ghost predicate InOrder<A>(r: Runner<A>, step: Step<A>) {
    match step
    case Enqueued(job, _, token) =>
      job.Key() !in Owners(r.tokens) && (token.Some? && token.value.Default? ==> token.value.jobId == job.jobId)
    case Fired(at) => at == 0
    case Cancelled(jobId, id) =>
      id.Some? && forall listed :: listed in r.queue.list && listed.uuid == jobId ==> listed == id.value
  }

  lemma {:induction false} HeadOfAmong(list: seq<StorageId>, ids: set<StorageId>)
    requires list != [] && list[0] in ids
    ensures Among(list, ids, true) != [] && Among(list, ids, true)[0] == list[0]
  {
    assert list == [list[0]] + list[1..];
    AmongConcat([list[0]], list[1..], ids, true);
    AmongAll([list[0]], ids, true);
  }

  /** Taking one id out of a subsequence leaves a subsequence. */
  lemma SubsequenceWithout(owners: seq<StorageId>, list: seq<StorageId>, id: StorageId)
    requires Distinct(owners) && Distinct(list) && list == Among(owners, IdsOf(list), true)
    ensures RemoveFirst(list, id) == Among(owners, IdsOf(RemoveFirst(list, id)), true)
  {
    hide Among, Distinct, RemoveFirst;
    RemovingDistinct(list, id);
    AmongMembers(owners, IdsOf(list), true);
    if id in list {
      var i := IndexOf(owners, id);
      var a, b := owners[..i], owners[i + 1..];
      var ids, ids' := IdsOf(list), IdsOf(RemoveFirst(list, id));
      assert owners == a + [id] + b;
      assert owners == a + ([id] + b);
      DistinctParts(a, [id] + b);
      DistinctParts([id], b);
      AmongConcat(a + [id], b, ids, true);
      AmongConcat(a, [id], ids, true);
      AmongConcat(a + [id], b, ids', true);
      AmongConcat(a, [id], ids', true);
      AmongSame(a, ids, ids', true);
      AmongSame(b, ids, ids', true);
      AmongAll([id], ids, true);
      AmongAll([id], ids', false);
      AmongMembers(a, ids, true);
      RemoveAtFirst(Among(a, ids, true), id, Among(b, ids, true));
      assert list == Among(a, ids, true) + [id] + Among(b, ids, true);
    } else {
      RemovingAbsent(list, id);
    }
  }

  lemma IndexOf(list: seq<StorageId>, id: StorageId) returns (i: nat)
    requires id in list
    ensures i < |list| && list[i] == id
  {
    i :| 0 <= i < |list| && list[i] == id;
  }

  lemma {:induction false} RemovingAbsent(list: seq<StorageId>, id: StorageId)
    requires id !in list
    ensures RemoveFirst(list, id) == list
  {
    if list != [] {
      RemovingAbsent(list[1..], id);
    }
  }

  /** An owner that is not listed can go. */
  lemma SubsequenceOfFewer(owners: seq<StorageId>, i: nat, list: seq<StorageId>)
    requires i < |owners| && Distinct(owners) && owners[i] !in list
    requires list == Among(owners, IdsOf(list), true)
    ensures Distinct(owners[..i] + owners[i + 1..])
    ensures list == Among(owners[..i] + owners[i + 1..], IdsOf(list), true)
  {
    hide Among;
    var a, id, b := owners[..i], owners[i], owners[i + 1..];
    assert owners == a + [id] + b;
    AmongConcat(a + [id], b, IdsOf(list), true);
    AmongConcat(a, [id], IdsOf(list), true);
    AmongConcat(a, b, IdsOf(list), true);
    AmongAll([id], IdsOf(list), false);
  }

  /** Where cancelling drops a token, if it does. */
  lemma {:induction false} CancellingToken(tokens: seq<Token>, id: TokenId) returns (i: nat)
    ensures i <= |tokens|
    ensures i == |tokens| ==> CancelToken(tokens, id) == tokens && forall token :: token in tokens ==> token.id != id
    ensures i < |tokens| ==> tokens[i].id == id && CancelToken(tokens, id) == tokens[..i] + tokens[i + 1..]
  {
    if tokens == [] || tokens[0].id == id {
      i := 0;
    } else {
      var rest := tokens[1..];
      var k := CancellingToken(rest, id);
      i := k + 1;
      assert tokens == [tokens[0]] + rest;
      if k < |rest| {
        assert tokens[..i] + tokens[i + 1..] == [tokens[0]] + (rest[..k] + rest[k + 1..]);
      }
    }
  }

  lemma OwnersWithout(tokens: seq<Token>, i: nat)
    requires i < |tokens|
    ensures Owners(tokens[..i] + tokens[i + 1..]) == Owners(tokens)[..i] + Owners(tokens)[i + 1..]
    ensures forall token :: token in tokens[..i] + tokens[i + 1..] ==> token in tokens
  {
  }

  lemma CoveredStep<A>(r: Runner<A>, step: Step<A>)
    requires Covered(r) && InOrder(r, step)
    ensures Covered(After(r, step))
  {
    hide Among, Distinct, RemoveFirst, CancelToken;
    var owners, list := Owners(r.tokens), r.queue.list;
    match step
    case Enqueued(job, args, token) =>
      CoveredEnqueue(r, job, args, token);
    case Fired(at) =>
      if r.tokens != [] {
        NextRemovesHead(r.queue);
        OwnersWithout(r.tokens, 0);
        AmongMembers(owners, IdsOf(list), true);
        if list != [] {
          SubsequenceWithout(owners, list, list[0]);
          RemovingDistinct(list, list[0]);
          if owners[0] in list {
            HeadOfAmong(owners, IdsOf(list));
          }
        }
        SubsequenceOfFewer(owners, 0, Next(r.queue).0.list);
      }
    case Cancelled(jobId, id) =>
      var queue := PopJob(r.queue, id.value).0;
      PopKeepsValidHere(r.queue, id.value);
      SubsequenceWithout(owners, list, id.value);
      RemovingDistinct(list, id.value);
      var i := CancellingToken(r.tokens, Default(jobId));
      if i < |r.tokens| {
        OwnersWithout(r.tokens, i);
        SubsequenceOfFewer(owners, i, queue.list);
      }
  }

  lemma CoveredEnqueue<A>(r: Runner<A>, job: QueuedJob, args: A, token: Option<TokenId>)
    requires Covered(r) && InOrder(r, Enqueued(job, args, token))
    ensures Covered(Enqueue(r, job, args, token))
  {
    hide Among, Distinct, Queue<A>.Valid;
    var owners, list, id := Owners(r.tokens), r.queue.list, job.Key();
    AmongMembers(owners, IdsOf(list), true);
    AddKeepsValid(r.queue, job, args);
    SubsequenceWithOneMore(owners, list, id);
    assert Owners(Enqueue(r, job, args, token).tokens) == owners + [id];
  }

  lemma SubsequenceWithOneMore(owners: seq<StorageId>, list: seq<StorageId>, id: StorageId)
    requires Distinct(owners) && id !in owners && list == Among(owners, IdsOf(list), true)
    ensures Distinct(owners + [id])
    ensures list + [id] == Among(owners + [id], IdsOf(list + [id]), true)
  {
    hide Among;
    var ids' := IdsOf(list + [id]);
    AmongConcat(owners, [id], ids', true);
    AmongSame(owners, IdsOf(list), ids', true);
    AmongAll([id], ids', true);
  }

  ghost predicate RunInOrder<A>(steps: seq<Step<A>>) {
    steps == [] || (RunInOrder(steps[..|steps| - 1]) && InOrder(Reach(steps[..|steps| - 1]), steps[|steps| - 1]))
  }

  /** When tokens fire in order and jobs are cancelled with their own storage id,
      there are at all times at least as many tokens as jobs. */
  lemma {:induction false} TokensSuffice<A>(steps: seq<Step<A>>)
    requires RunInOrder(steps)
    ensures Covered(Reach(steps)) && |Reach(steps).queue.list| <= |Reach(steps).tokens|
  {
    hide Covered, InOrder;
    if steps == [] {
      CoveredEmpty<A>();
    } else {
      TokensSuffice(steps[..|steps| - 1]);
      CoveredStep(Reach(steps[..|steps| - 1]), steps[|steps| - 1]);
    }
    CoveredIsEnough(Reach(steps));
  }

  lemma CoveredEmpty<A>()
    ensures Covered<A>(EmptyRunner())
  {
  }

  lemma CoveredIsEnough<A>(r: Runner<A>)
    requires Covered(r)
    ensures |r.queue.list| <= |r.tokens|
  {
    AmongLength(Owners(r.tokens), IdsOf(r.queue.list), true);
  }

  // --- tokens in any order ---

  ghost predicate Explicits(tokens: seq<Token>) {
    forall token :: token in tokens ==> token.id.Explicit?
  }

  lemma {:induction false} CancellingNothing(tokens: seq<Token>, id: TokenId)
    requires forall token :: token in tokens ==> token.id != id
    ensures CancelToken(tokens, id) == tokens
  {
    if tokens != [] {
      CancellingNothing(tokens[1..], id);
    }
  }

  /** No more jobs than tokens, and all tokens have ids of their own. */
  ghost predicate Enough<A>(r: Runner<A>) {
    Explicits(r.tokens) && |r.queue.list| <= |r.tokens|
  }

  ghost predicate OwnToken<A>(step: Step<A>) {
    step.Enqueued? ==> step.token.Some? && step.token.value.Explicit?
  }

  lemma EnoughStep<A>(r: Runner<A>, step: Step<A>)
    requires Enough(r) && OwnToken(step)
    ensures Enough(After(r, step))
  {
    match step
    case Enqueued(job, args, token) =>
    case Fired(at) =>
    case Cancelled(jobId, id) =>
      CancellingNothing(r.tokens, Default(jobId));
      if id.Some? {
        RemovingOne(r.queue.list, id.value);
      }
  }

  /** When every token is given an id of its own, as all stages of the scheduler do,
      no cancellation finds a token to cancel; then there are tokens enough
      whichever of them fire, and whatever storage ids are passed. */
  lemma {:induction false} OwnTokensSuffice<A>(steps: seq<Step<A>>)
    requires forall step :: step in steps ==> OwnToken(step)
    ensures Enough(Reach(steps))
  {
    if steps != [] {
      OwnTokensSuffice(steps[..|steps| - 1]);
      EnoughStep(Reach(steps[..|steps| - 1]), steps[|steps| - 1]);
    }
  }

  lemma RemovingLength(list: seq<StorageId>)
    ensures list != [] ==> RemoveFirst(list, list[0]) == list[1..]
  {
  }

  /** The steps that spend a token without taking a job off the list, when there
      is none to spare. */
  ghost predicate Strands<A>(r: Runner<A>, step: Step<A>) {
    && step.Cancelled?
    && |r.queue.list| == |r.tokens|
    && (exists token :: token in r.tokens && token.id == Default(step.jobId))
    && (step.id.Some? ==> step.id.value !in r.queue.list)
  }

  /** From a state with tokens enough, exactly those steps leave too few. */
  lemma StepKeepsEnough<A>(r: Runner<A>, step: Step<A>)
    requires r.queue.Valid() && |r.queue.list| <= |r.tokens|
    ensures |After(r, step).queue.list| <= |After(r, step).tokens| <==> !Strands(r, step)
  {
    hide Queue<A>.Valid;
    match step
    case Enqueued(job, args, token) =>
    case Fired(at) =>
      NextRemovesHead(r.queue);
      RemovingLength(r.queue.list);
    case Cancelled(jobId, id) =>
      var i := CancellingToken(r.tokens, Default(jobId));
      if i < |r.tokens| {
        assert r.tokens[i] in r.tokens;
      }
      if id.Some? {
        PopKeepsValidHere(r.queue, id.value);
        RemovingOne(r.queue.list, id.value);
      }
  }

  lemma {:induction false} RemovingOne(list: seq<StorageId>, id: StorageId)
    ensures |RemoveFirst(list, id)| == |list| - if id in list then 1 else 0
  {
    if list != [] {
      RemovingOne(list[1..], id);
      assert list == [list[0]] + list[1..];
    }
  }

  /** With default ids and tokens firing out of order a job can be left without a
      token: two jobs, the second token runs the first job, and cancelling the
      first job, though with its own storage id, cancels the token left. */
  lemma StuckJob(a: QueuedJob, b: QueuedJob)
    requires a.jobId != b.jobId
    ensures var fired := Fire(Enqueue(Enqueue(EmptyRunner(), a, true, None), b, true, None), 1);
            var r := CancelJob(fired, a.jobId, Some(a.Key()));
            r.queue.list == [b.Key()] && r.tokens == []
  {
    var r0 := Enqueue(Enqueue<bool>(EmptyRunner(), a, true, None), b, true, None);
    assert r0.queue.list == [a.Key(), b.Key()];
    var r1 := Fire(r0, 1);
    assert r1.queue.list == [b.Key()] && r1.tokens == [Token(Default(a.jobId), a.Key())];
    RemovingAbsent(r1.queue.list, a.Key());
  }

  // --- the order in which jobs run ---

  /** What one step asks for, runs, and drops of the jobs that wait. */
  function AskedBy<A>(step: Step<A>): seq<StorageId> {
    if step.Enqueued? then [step.job.Key()] else []
  }

  function RanBy<A>(r: Runner<A>, step: Step<A>): seq<StorageId> {
    if step.Fired? && step.at < |r.tokens| && r.queue.list != [] then [r.queue.list[0]] else []
  }

  function DroppedBy<A>(r: Runner<A>, step: Step<A>): seq<StorageId> {
    if step.Cancelled? && step.id.Some? && step.id.value in r.queue.list then [step.id.value] else []
  }

  function Asked<A>(steps: seq<Step<A>>): seq<StorageId> {
    if steps == [] then [] else Asked(steps[..|steps| - 1]) + AskedBy(steps[|steps| - 1])
  }

  function Ran<A>(steps: seq<Step<A>>): seq<StorageId> {
    if steps == [] then []
    else Ran(steps[..|steps| - 1]) + RanBy(Reach(steps[..|steps| - 1]), steps[|steps| - 1])
  }

  function Dropped<A>(steps: seq<Step<A>>): seq<StorageId> {
    if steps == [] then []
    else Dropped(steps[..|steps| - 1]) + DroppedBy(Reach(steps[..|steps| - 1]), steps[|steps| - 1])
  }

  lemma {:induction false} RemovingFromTail(a: seq<StorageId>, b: seq<StorageId>, id: StorageId)
    requires id !in a && id in b
    ensures RemoveFirst(a + b, id) == a + RemoveFirst(b, id)
    decreases |a|
  {
    if a == [] {
      assert a + b == b && a + RemoveFirst(b, id) == RemoveFirst(b, id);
    } else {
      var c := a[1..];
      assert (a + b)[1..] == c + b;
      RemovingFromTail(c, b, id);
      assert a == [a[0]] + c;
    }
  }

  /** Whichever tokens fire: the jobs that ran, followed by the jobs that wait, are
      the jobs as they were enqueued, less those cancelled while they waited. */
  lemma {:induction false} JobsRunInOrder<A>(steps: seq<Step<A>>)
    requires Distinct(Asked(steps))
    ensures Reach(steps).queue.Valid()
    ensures Ran(steps) + Reach(steps).queue.list == Among(Asked(steps), IdsOf(Dropped(steps)), false)
    ensures forall id :: id in Dropped(steps) ==> id in Asked(steps)
  {
    if steps != [] {
      hide Among, Distinct, Queue<A>.Valid, After, AskedBy, RanBy, DroppedBy;
      var front := steps[..|steps| - 1];
      DistinctBefore(Asked(front), Asked(steps));
      JobsRunInOrder(front);
      OneStepInOrder(Reach(front), steps[|steps| - 1], Ran(front), Asked(front), Dropped(front));
    }
  }

  lemma OneStepInOrder<A>(r: Runner<A>, step: Step<A>, ran: seq<StorageId>, asked: seq<StorageId>,
                          dropped: seq<StorageId>)
    requires r.queue.Valid() && Distinct(asked + AskedBy(step))
    requires ran + r.queue.list == Among(asked, IdsOf(dropped), false)
    requires forall id :: id in dropped ==> id in asked
    ensures After(r, step).queue.Valid()
    ensures ran + RanBy(r, step) + After(r, step).queue.list ==
            Among(asked + AskedBy(step), IdsOf(dropped + DroppedBy(r, step)), false)
    ensures forall id :: id in dropped + DroppedBy(r, step) ==> id in asked + AskedBy(step)
  {
    hide Among, RemoveFirst, Distinct, Queue<A>.Valid, Fire, Enqueue;
    WaitingWereAsked(ran, r.queue.list, asked, IdsOf(dropped));
    match step
    case Enqueued(job, args, token) =>
      AskedIsNew(asked, job.Key());
      EnqueuedLast(r, job, args, token, ran, asked, IdsOf(dropped));
      assert dropped + DroppedBy(r, step) == dropped && ran + RanBy(r, step) == ran;
    case Fired(at) =>
      FiredNext(r, at);
      assert dropped + DroppedBy(r, step) == dropped && asked + AskedBy(step) == asked;
    case Cancelled(jobId, id) =>
      assert ran + RanBy(r, step) == ran && asked + AskedBy(step) == asked;
      if id.Some? {
        DistinctBefore(asked, asked + AskedBy(step));
        PopKeepsValidHere(r.queue, id.value);
        CancellingOne(ran, r.queue.list, asked, dropped, id.value);
      }
      assert id.None? || id.value !in r.queue.list ==> dropped + DroppedBy(r, step) == dropped;
  }

  lemma EnqueuedLast<A>(r: Runner<A>, job: QueuedJob, args: A, token: Option<TokenId>,
                        ran: seq<StorageId>, asked: seq<StorageId>, dropped: set<StorageId>)
    requires r.queue.Valid() && ran + r.queue.list == Among(asked, dropped, false)
    requires job.Key() !in r.queue.list && job.Key() !in dropped
    ensures var after := Enqueue(r, job, args, token);
            && after.queue.Valid()
            && ran + after.queue.list == Among(asked + [job.Key()], dropped, false)
  {
    hide Among;
    AddKeepsValid(r.queue, job, args);
    AmongConcat(asked, [job.Key()], dropped, false);
    AmongAll([job.Key()], dropped, false);
  }

  lemma FiredNext<A>(r: Runner<A>, at: nat)
    requires r.queue.Valid()
    ensures After(r, Fired(at)).queue.Valid()
    ensures at < |r.tokens| && r.queue.list != [] ==>
              r.queue.list == [r.queue.list[0]] + After(r, Fired(at)).queue.list
    ensures at >= |r.tokens| || r.queue.list == [] ==> After(r, Fired(at)).queue.list == r.queue.list
  {
    NextRemovesHead(r.queue);
    RemovingLength(r.queue.list);
  }

  lemma WaitingWereAsked(ran: seq<StorageId>, list: seq<StorageId>, asked: seq<StorageId>, dropped: set<StorageId>)
    requires ran + list == Among(asked, dropped, false)
    ensures forall id :: id in list ==> id in asked && id !in dropped
  {
    AmongMembers(asked, dropped, false);
    forall id | id in list
      ensures id in asked && id !in dropped
    {
      assert id in ran + list;
    }
  }

  /** What cancelling does to the jobs that ran or wait. */
  lemma CancellingOne(ran: seq<StorageId>, list: seq<StorageId>, asked: seq<StorageId>,
                      dropped: seq<StorageId>, id: StorageId)
    requires Distinct(asked) && ran + list == Among(asked, IdsOf(dropped), false)
    ensures id in list ==> ran + RemoveFirst(list, id) == Among(asked, IdsOf(dropped + [id]), false)
    ensures id !in list ==> RemoveFirst(list, id) == list
  {
    hide Among, RemoveFirst, Distinct;
    if id in list {
      WaitingWereAsked(ran, list, asked, IdsOf(dropped));
      DistinctAmong(asked, IdsOf(dropped), false);
      DistinctParts(ran, list);
      RemovingFromTail(ran, list, id);
      RemovingFromAmong(asked, dropped, id);
    } else {
      RemovingAbsent(list, id);
    }
  }

  lemma DistinctBefore(before: seq<StorageId>, all: seq<StorageId>)
    requires Distinct(all) && before <= all
    ensures Distinct(before)
  {
  }

  lemma AskedIsNew(before: seq<StorageId>, id: StorageId)
    requires Distinct(before + [id])
    ensures id !in before
  {
    var all := before + [id];
    forall i | 0 <= i < |before|
      ensures before[i] != id
    {
      assert all[i] != all[|before|];
    }
  }

  /** Firing n tokens, in any order. */
  function FireMany<A>(r: Runner<A>, picks: seq<nat>): Runner<A>
    decreases |picks|
  {
    if picks == [] || r.tokens == [] then r
    else FireMany(Fire(r, picks[0] % |r.tokens|), picks[1..])
  }

  /** If there are tokens enough, firing them all, in any order, empties the queue. */
  lemma {:induction false} FiringAllEmpties<A>(r: Runner<A>, picks: seq<nat>)
    requires |r.queue.list| <= |r.tokens| == |picks|
    ensures FireMany(r, picks).queue.list == [] && FireMany(r, picks).tokens == []
    decreases |picks|
  {
    if picks != [] {
      FiringAllEmpties(Fire(r, picks[0] % |r.tokens|), picks[1..]);
    }
  }
}
