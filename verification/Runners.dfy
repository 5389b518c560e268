/** `RunnerQueue` on values: the jobs wait in a static queue, and for each of them
    one anonymous token waits in the worker's queue.  A token that fires runs
    whatever job is at the head. */
module Runners {
  import opened Wrappers
  import opened Queues

  /** The id of a token: by default made of the names of the queue and of the job;
      callers may pass one of their own. */
  datatype TokenId = Default(jobId: string) | Explicit(name: string)

  /** The owner is the job a token was created for.  Firing does not look at it. */
  datatype Token = Token(id: TokenId, owner: StorageId)

  datatype Runner<A> = Runner(queue: Queue<A>, tokens: seq<Token>)

  function EmptyRunner<A>(): Runner<A> {
    Runner(EmptyQueue(), [])
  }

  function Enqueue<A>(r: Runner<A>, job: QueuedJob, args: A, id: Option<TokenId>): Runner<A> {
    var token := if id.Some? then id.value else Default(job.jobId);
    Runner(Add(r.queue, job, args), r.tokens + [Token(token, job.Key())])
  }

  /** Drops the first pending token with the id, if there is one. */
  function CancelToken(tokens: seq<Token>, id: TokenId): seq<Token> {
    if tokens == [] then []
    else if tokens[0].id == id then tokens[1..]
    else [tokens[0]] + CancelToken(tokens[1..], id)
  }

  /** Takes the job out of the static queue, if its storage id is given and listed,
      and cancels the token that has the default id of the job. */
  function CancelJob<A>(r: Runner<A>, jobId: string, id: Option<StorageId>): Runner<A> {
    Runner(if id.Some? then PopJob(r.queue, id.value).0 else r.queue, CancelToken(r.tokens, Default(jobId)))
  }

  /** The first pending token with the id goes, and no other. */
  lemma {:induction false} CancelledAt(tokens: seq<Token>, id: TokenId, at: nat)
    requires at < |tokens| && tokens[at].id == id && forall j :: 0 <= j < at ==> tokens[j].id != id
    ensures CancelToken(tokens, id) == tokens[..at] + tokens[at + 1..]
  {
    if at > 0 {
      CancelledAt(tokens[1..], id, at - 1);
    }
  }

  lemma {:induction false} NoneCancelled(tokens: seq<Token>, id: TokenId)
    requires forall j :: 0 <= j < |tokens| ==> tokens[j].id != id
    ensures CancelToken(tokens, id) == tokens
  {
    if tokens != [] {
      NoneCancelled(tokens[1..], id);
    }
  }

  /** The i-th pending token fires. */
  function Fire<A>(r: Runner<A>, i: nat): Runner<A>
    requires i < |r.tokens|
  {
    Runner(Next(r.queue).0, r.tokens[..i] + r.tokens[i + 1..])
  }
}
