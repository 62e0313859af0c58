/** The records and the summary that both retrieval-augmented evaluations
    (prompting/core_rag.py and prompting/core_RAG.py) write: one record per
    task with its candidates, the rank of the hit and a retrieval flag
    (`db_hit` in the first script, `contamination` in the second). */
module RagScoring {
  import opened Outcomes
  import opened PyText
  import opened Seqs
  import opened JsonValue

  /** One prediction task: the session id, the context and the command
      expected after it. */
  datatype EvalTask = EvalTask(session: Json, context: seq<string>, expected: string)

  /** One record; `rank` is the 1-based rank of the hit, 0 for a miss (the
      file stores `None`). */
  datatype Outcome = Outcome(task: EvalTask, candidates: seq<string>, rank: nat, flagged: bool)

  /** The path test of both scripts: either path is empty or one occurs in
      the other (`exp_path in cand_path or cand_path in exp_path`). */
  predicate PathsAgree(exp: string, cand: string) {
    exp == "" || cand == "" || Contains(cand, exp) || Contains(exp, cand)
  }

  predicate Hit(o: Outcome) { o.rank > 0 }
  predicate Top1(o: Outcome) { o.rank == 1 }
  predicate Empty(o: Outcome) { o.candidates == [] }
  predicate FlaggedHit(o: Outcome) { o.rank > 0 && o.flagged }
  predicate CleanHit(o: Outcome) { o.rank > 0 && !o.flagged }

  /** A hit is one of the candidates. */
  predicate Ranked(o: Outcome) { o.rank <= |o.candidates| }

  /** Every hit is counted once, as flagged or as clean. */
  lemma {:induction false} HitsSplit(outs: seq<Outcome>)
    ensures Count(outs, FlaggedHit) + Count(outs, CleanHit) == Count(outs, Hit)
  {
    if outs != [] {
      HitsSplit(outs[1..]);
    }
  }

  /** A rank-1 hit is a hit, and a hit needs a candidate. */
  lemma {:induction false} HitsBounded(outs: seq<Outcome>)
    requires forall j :: 0 <= j < |outs| ==> Ranked(outs[j])
    ensures Count(outs, Top1) <= Count(outs, Hit) <= |outs| - Count(outs, Empty)
  {
    if outs != [] {
      assert Ranked(outs[0]);
      HitsBounded(outs[1..]);
    }
  }

  /** How one more record moves the three running counters. */
  lemma Tally(outs: seq<Outcome>, o: Outcome)
    ensures Count(outs + [o], Hit) == Count(outs, Hit) + (if o.rank > 0 then 1 else 0)
    ensures Count(outs + [o], Top1) == Count(outs, Top1) + (if o.rank == 1 then 1 else 0)
    ensures Count(outs + [o], Empty) == Count(outs, Empty) + (if o.candidates == [] then 1 else 0)
  {
    CountAppend(outs, [o], Hit);
    CountAppend(outs, [o], Top1);
    CountAppend(outs, [o], Empty);
  }

  /** The records of the first `n` tasks, task `j` scored by `score` from
      what the query returned for it and the model's answer to it. */
  function Scored<D>(score: (EvalTask, D, string, int) -> Outcome,
                     tasks: seq<EvalTask>, found: seq<D>, replies: seq<string>, k: int, n: nat): (r: seq<Outcome>)
    requires n <= |tasks| && |found| == |tasks| && |replies| == |tasks|
    ensures |r| == n
  {
    if n == 0 then []
    else Scored(score, tasks, found, replies, k, n - 1) + [score(tasks[n - 1], found[n - 1], replies[n - 1], k)]
  }

  /** Record `j` is the score of task `j`. */
  lemma {:induction false} ScoredAt<D>(score: (EvalTask, D, string, int) -> Outcome,
                                       tasks: seq<EvalTask>, found: seq<D>, replies: seq<string>, k: int, n: nat, j: nat)
    requires n <= |tasks| && |found| == |tasks| && |replies| == |tasks| && j < n
    ensures Scored(score, tasks, found, replies, k, n)[j] == score(tasks[j], found[j], replies[j], k)
    decreases n
  {
    if j < n - 1 {
      ScoredAt(score, tasks, found, replies, k, n - 1, j);
    }
  }

  /** Scoring one more task appends its record and moves the counters. */
  lemma ScoredStep<D>(score: (EvalTask, D, string, int) -> Outcome,
                      tasks: seq<EvalTask>, found: seq<D>, replies: seq<string>, k: int, i: nat,
                      outs: seq<Outcome>, o: Outcome)
    requires i < |tasks| && |found| == |tasks| && |replies| == |tasks|
    requires outs == Scored(score, tasks, found, replies, k, i) && o == score(tasks[i], found[i], replies[i], k)
    ensures outs + [o] == Scored(score, tasks, found, replies, k, i + 1)
    ensures Count(outs + [o], Hit) == Count(outs, Hit) + (if Hit(o) then 1 else 0)
    ensures Count(outs + [o], Top1) == Count(outs, Top1) + (if Top1(o) then 1 else 0)
    ensures Count(outs + [o], Empty) == Count(outs, Empty) + (if Empty(o) then 1 else 0)
  {
    Tally(outs, o);
  }

  /** The three running counters of the evaluation loops after one more
      record: empty answers, hits, and hits at rank one. */
  method CountOutcome(o: Outcome, topk: nat, top1: nat, empty: nat) returns (topk': nat, top1': nat, empty': nat)
    ensures topk' == topk + (if Hit(o) then 1 else 0)
    ensures top1' == top1 + (if Top1(o) then 1 else 0)
    ensures empty' == empty + (if Empty(o) then 1 else 0)
  {
    topk', top1', empty' := topk, top1, empty;
    if o.candidates == [] {
      empty' := empty' + 1;
    }
    if o.rank > 0 {
      topk' := topk' + 1;
      if o.rank == 1 {
        top1' := top1' + 1;
      }
    }
  }

  /** The printed summary: totals, hits, empty answers and the hits with and
      without the retrieval flag. */
  datatype Summary = Summary(total: nat, top1: nat, topk: nat, empty: nat, flagged: nat, clean: nat)

  /** The summary of the records, or the exit when there is none. The
      flagged and clean hits always add up to the top-k hits. */
  function Summarize(outs: seq<Outcome>): (r: Result<Summary>)
    ensures r.Ok? <==> outs != []
    ensures r.Ok? ==> r.value.total == |outs| && r.value.flagged + r.value.clean == r.value.topk
    ensures r.Ok? && (forall j :: 0 <= j < |outs| ==> Ranked(outs[j])) ==>
      r.value.top1 <= r.value.topk <= r.value.total - r.value.empty
    ensures r.Err? ==> r.error == "Nessun risultato generato."
  {
    if outs == [] then Err("Nessun risultato generato.")
    else
      HitsSplit(outs);
      assert (forall j :: 0 <= j < |outs| ==> Ranked(outs[j])) ==>
        Count(outs, Top1) <= Count(outs, Hit) <= |outs| - Count(outs, Empty) by {
        if forall j :: 0 <= j < |outs| ==> Ranked(outs[j]) {
          HitsBounded(outs);
        }
      }
      Ok(Summary(|outs|, Count(outs, Top1), Count(outs, Hit), Count(outs, Empty),
                 Count(outs, FlaggedHit), Count(outs, CleanHit)))
  }
}
