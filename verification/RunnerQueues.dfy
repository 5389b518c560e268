/** `RunnerQueue` as an object around a static queue, proved against `Runners`. */
module RunnerQueues {
  import opened Wrappers
  import opened Queues
  import opened StaticQueues
  import opened Runners

  class RunnerQueue<A> {
    const queue: StaticQueue<A>
    var tokens: seq<Token>

    function State(): Runner<A>
      reads this, queue
    {
      Runner(queue.State(), tokens)
    }

    constructor ()
      ensures State() == EmptyRunner() && fresh(queue)
    {
      queue := new StaticQueue();
      tokens := [];
    }

    method Enqueue(job: QueuedJob, args: A, id: Option<TokenId>)
      modifies this, queue
      ensures State() == Runners.Enqueue(old(State()), job, args, id)
      ensures var key := StorageId(job.jobId, if job.estimated.Some? then job.estimated.value else 0.0);
              && queue.list == old(queue.list) + [key]
              && tokens == old(tokens) + [Token(if id.Some? then id.value else Default(job.jobId), key)]
    {
      var token := if id.Some? then id.value else Default(job.jobId);
      queue.Add(job, args);
      tokens := tokens + [Token(token, job.Key())];
    }

    /** An id that is not in the static queue is ignored. */
    method CancelJob(jobId: string, id: Option<StorageId>) returns (cancelled: bool)
      modifies this, queue
      ensures State() == Runners.CancelJob(old(State()), jobId, id)
      ensures cancelled == exists token :: token in old(tokens) && token.id == Default(jobId)
      ensures id.None? ==> queue.State() == old(queue.State())
      ensures id.Some? ==> DropsFirst(old(queue.list), id.value, queue.list)
      ensures !cancelled ==> tokens == old(tokens)
      ensures forall at :: 0 <= at < |old(tokens)| && old(tokens)[at].id == Default(jobId) &&
                           (forall j :: 0 <= j < at ==> old(tokens)[j].id != Default(jobId)) ==>
                tokens == old(tokens)[..at] + old(tokens)[at + 1..]
    {
      forall at | 0 <= at < |tokens| && tokens[at].id == Default(jobId) &&
                  (forall j :: 0 <= j < at ==> tokens[j].id != Default(jobId))
        ensures CancelToken(tokens, Default(jobId)) == tokens[..at] + tokens[at + 1..]
      {
        CancelledAt(tokens, Default(jobId), at);
      }
      if forall j :: 0 <= j < |tokens| ==> tokens[j].id != Default(jobId) {
        NoneCancelled(tokens, Default(jobId));
      }
      if id.Some? {
        PoppingMeans(queue.State(), id.value);
        var _ := queue.PopJob(id.value);
      }
      cancelled := exists token :: token in tokens && token.id == Default(jobId);
      tokens := CancelToken(tokens, Default(jobId));
    }

    /** The i-th pending token fires: the head of the static queue is run. */
    method Fire(i: nat) returns (job: Result<Option<Item<A>>, QueueError>)
      requires i < |tokens|
      modifies this, queue
      ensures State() == Runners.Fire(old(State()), i)
      ensures job == Next(old(State()).queue).1
      ensures tokens == old(tokens)[..i] + old(tokens)[i + 1..]
      ensures queue.list == if old(queue.list) == [] then [] else old(queue.list)[1..]
    {
      tokens := tokens[..i] + tokens[i + 1..];
      job := queue.Next();
    }
  }
}
