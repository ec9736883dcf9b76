/**
 The optimizer's promote-or-revert loop: a walk over git HEAD, the champion's score and
 a patience counter. Scores are real numbers and the promotion threshold is exact. The
 commit of an iteration is taken to succeed, and nothing else commits.
 */
module Optimizer {
  import opened Basics

  type Commit = nat

  /** The knobs of the harness. */
  datatype Knobs = Knobs(epsilon: real, patience: int, watchdogEvery: nat)

  /** What happens in one iteration: the stop file, the model's exit code, whether it left
      changes, the commit the harness makes of them, the measured score, and the drift
      the watchdog finds if it is due. */
  datatype Iteration = Iteration(stop: bool, rc: int, changed: bool, commit: Commit, score: real, drifted: bool)

  /** An iteration is committed and measured exactly when the loop is not told to stop, the
      model succeeded and it left a change. */
  predicate Measurable(x: Iteration) {
    !x.stop && x.rc == 0 && x.changed
  }

  /** Where the loop stands. */
  datatype Standing = Standing(
    history: seq<Commit>, best: real, champion: Commit, noImprove: nat, iter: nat, measured: nat, promotions: nat)

  predicate Promoted(epsilon: real, s: Standing, x: Iteration) {
    Measurable(x) && x.score > 0.0 && x.score > s.best * (1.0 + epsilon)
  }

  /** What iteration x makes of standing s, and whether the loop is done. A promotion keeps
      the commit and makes it the champion; any other measurement leaves history, champion
      and score and is held against the patience; nothing else counts. The loop is done when
      told to stop, or behind a measurement when a due watchdog finds drift or the patience
      is used up. */
  predicate Moves(knobs: Knobs, s: Standing, x: Iteration, t: Standing, done: bool)
    requires knobs.watchdogEvery > 0
  {
    && t.iter == s.iter + (if x.stop then 0 else 1)
    && t.measured == s.measured + (if Measurable(x) then 1 else 0)
    && t.promotions == s.promotions + (if Promoted(knobs.epsilon, s, x) then 1 else 0)
    && (if Promoted(knobs.epsilon, s, x)
        then t.history == s.history + [x.commit] && t.champion == x.commit && t.best == x.score && t.noImprove == 0
        else t.history == s.history && t.champion == s.champion && t.best == s.best
             && t.noImprove == s.noImprove + if Measurable(x) then 1 else 0)
    && (done <==> x.stop || (Measurable(x) && ((t.iter % knobs.watchdogEvery == 0 && x.drifted)
                                               || t.noImprove >= knobs.patience)))
  }

  /** The standings behind the first iterations of xs, one by one; the loop was done behind
      the last of them, if at all. */
  ghost predicate Course(knobs: Knobs, xs: seq<Iteration>, course: seq<Standing>, done: bool)
    requires knobs.watchdogEvery > 0
  {
    && 0 < |course| <= |xs| + 1 && (done ==> |course| > 1)
    && forall i :: 0 <= i < |course| - 1 ==> Moves(knobs, course[i], xs[i], course[i + 1], done && i == |course| - 2)
  }

  /** A course of so many iterations from one standing to another, each begun below the
      maximum. */
  ghost predicate Tracks(knobs: Knobs, xs: seq<Iteration>, course: seq<Standing>, done: bool, maxIters: nat,
                         from: Standing, taken: nat, now: Standing)
    requires knobs.watchdogEvery > 0
  {
    && Course(knobs, xs, course, done) && |course| == taken + 1 && course[0] == from && course[taken] == now
    && forall i :: 0 <= i < taken ==> course[i].iter < maxIters
  }

  lemma TracksNext(knobs: Knobs, xs: seq<Iteration>, course: seq<Standing>, maxIters: nat,
                   from: Standing, taken: nat, now: Standing, next: Standing, done: bool)
    requires knobs.watchdogEvery > 0 && Tracks(knobs, xs, course, false, maxIters, from, taken, now)
    requires taken < |xs| && now.iter < maxIters && Moves(knobs, now, xs[taken], next, done)
    ensures Tracks(knobs, xs, course + [next], done, maxIters, from, taken + 1, next)
  {
    var c := course + [next];
    forall i | 0 <= i < taken + 1 ensures Moves(knobs, c[i], xs[i], c[i + 1], done && i == taken) {
      if i < taken { assert Moves(knobs, course[i], xs[i], course[i + 1], false); }
    }
  }

  /** The measurements of a course are its measurable iterations, each once. */
  lemma {:induction false} MeasuredCount(knobs: Knobs, xs: seq<Iteration>, course: seq<Standing>, done: bool, n: nat)
    requires knobs.watchdogEvery > 0 && Course(knobs, xs, course, done) && n < |course|
    ensures course[n].measured == course[0].measured + Count(Measurable, xs[..n])
  {
    if n > 0 {
      MeasuredCount(knobs, xs, course, done, n - 1);
      assert Moves(knobs, course[n - 1], xs[n - 1], course[n], done && n - 1 == |course| - 2);
      assert xs[..n] == xs[..n - 1] + [xs[n - 1]];
      CountSnoc(Measurable, xs[..n - 1], xs[n - 1]);
    }
  }

  function Pow(x: real, k: nat): real {
    if k == 0 then 1.0 else x * Pow(x, k - 1)
  }

  /** The highest score in play: the one to begin with, or the bound on the others. */
  function Top(start: real, M: real): real {
    if M < start then start else M
  }

  /** With scores up to M, k promotions from `start` and the measurements are bounded. */
  predicate Bounded(start: real, e: real, M: real, k: nat, measured: nat, patience: nat) {
    && (1.0 + k as real * e) * start <= M
    && measured as real * (e * start) <= (M - start + e * start) * patience as real
  }

  /** Growth by a factor is at least growth by steps. */
  lemma {:induction false} Bernoulli(e: real, k: nat)
    requires e >= 0.0
    ensures Pow(1.0 + e, k) >= 1.0 + k as real * e
  {
    if k > 0 {
      Bernoulli(e, k - 1);
      var p := Pow(1.0 + e, k - 1);
      assert (1.0 + e) * p == p + e * p;
      assert p >= 1.0 by { assert (k - 1) as real * e >= 0.0; }
      assert e * (p - 1.0) >= 0.0;
      assert k as real * e == (k - 1) as real * e + e;
    }
  }

  class Loop {
    const knobs: Knobs
    var history: seq<Commit>
    var best: real
    var champion: Commit
    var noImprove: nat
    var iter: nat
    ghost var measured: nat
    ghost var promotions: nat
    ghost const start: real          // the champion's score when the loop begins
    ghost const origin: seq<Commit>  // the history when the loop begins

    constructor (knobs: Knobs, history: seq<Commit>, best: real)
      requires history != []
      ensures this.knobs == knobs && origin == this.history == history && start == this.best == best
      ensures noImprove == iter == measured == promotions == 0
    {
      this.knobs, this.history, this.best, champion, noImprove, iter := knobs, history, best, 0, 0, 0;
      measured, promotions, start, origin := 0, 0, best, history;
    }

    ghost function Now(): Standing
      reads this
    {
      Standing(history, best, champion, noImprove, iter, measured, promotions)
    }

    /** HEAD is what it was, or the champion once there has been a promotion. */
    ghost predicate HeadIsChampion()
      reads this
    {
      && history != []
      && (promotions == 0 ==> history == origin && best == start)
      && (promotions > 0 ==> history[|history| - 1] == champion)
    }

    /** Every promotion multiplied the score by more than 1 + epsilon. */
    ghost predicate Grown()
      reads this
    {
      start > 0.0 ==>
        && best >= start * Pow(1.0 + knobs.epsilon, promotions)
        && (promotions > 0 ==> best > start * Pow(1.0 + knobs.epsilon, promotions))
    }

    /** A patience below one stops the loop like a patience of one. */
    function Patience(): nat {
      if knobs.patience < 1 then 1 else knobs.patience
    }

    /** Measurements since the last promotion are counted by noImprove. */
    ghost predicate Patient()
      reads this
    {
      measured <= promotions * Patience() + noImprove
    }

    ghost predicate Valid()
      reads this
    {
      HeadIsChampion() && Grown() && Patient() && knobs.epsilon >= 0.0
    }

    /** The score is worth keeping. */
    predicate Better(score: real)
      reads this
    {
      score > 0.0 && score > best * (1.0 + knobs.epsilon)
    }

    /** Commit the change, measure it, and promote or revert it. */
    method Measure(commit: Commit, score: real)
      requires Valid() && noImprove < Patience()
      modifies this`best, this`champion, this`noImprove, this`history, this`measured, this`promotions
      ensures Valid() && measured == old(measured) + 1
      ensures old(Better(score)) ==>
                && history == old(history) + [commit] && champion == commit && best == score
                && noImprove == 0 && promotions == old(promotions) + 1
      ensures !old(Better(score)) ==>
                && history == old(history) && champion == old(champion) && best == old(best)
                && noImprove == old(noImprove) + 1 && promotions == old(promotions)
    {
      history := history + [commit];
      measured := measured + 1;
      var threshold := best * (1.0 + knobs.epsilon);
      if score <= 0.0 {
        history := history[..|history| - 1];
        noImprove := noImprove + 1;
      } else if score > threshold {
        Growth(start, best, score, knobs.epsilon, promotions);
        best, champion := score, commit;
        noImprove := 0;
        promotions := promotions + 1;
        assert promotions * Patience() == old(promotions) * Patience() + Patience();
      } else {
        history := history[..|history| - 1];
        noImprove := noImprove + 1;
      }
    }

    /** One iteration; returns whether the loop ends. */
    method Iterate(x: Iteration) returns (done: bool)
      requires Valid() && noImprove < Patience() && knobs.watchdogEvery > 0
      modifies this`best, this`champion, this`noImprove, this`history, this`iter, this`measured, this`promotions
      ensures Valid() && Moves(knobs, old(Now()), x, Now(), done)
      ensures noImprove <= Patience() && (!done ==> noImprove < Patience())
    {
      if x.stop {
        return true;
      }
      iter := iter + 1;
      if x.rc != 0 {
        return false;
      }
      if !x.changed {
        return false;
      }
      Measure(x.commit, x.score);
      if iter % knobs.watchdogEvery == 0 && x.drifted {
        return true;
      }
      done := noImprove >= knobs.patience;
    }

    /** The loop, for every sequence of iterations. At every loop head and at the end HEAD is
        the champion, the score has grown geometrically with the promotions, and the
        measurements are bounded by the promotions. So if no score exceeds M, promotions
        and measurements are bounded by M, however long the sequence is. Every iteration is
        gone through in turn, until the loop is done or has had its number. */
    method Run(xs: seq<Iteration>, maxIters: nat, ghost M: real)
      returns (taken: nat, done: bool, ghost course: seq<Standing>)
      requires Valid() && iter == noImprove == measured == promotions == 0 && knobs.watchdogEvery > 0
      modifies this`best, this`champion, this`noImprove, this`history, this`iter, this`measured, this`promotions
      ensures Tracks(knobs, xs, course, done, maxIters, old(Now()), taken, Now())
      ensures measured == Count(Measurable, xs[..taken])
      ensures done || taken == |xs| || iter >= maxIters
      ensures HeadIsChampion()
      ensures start > 0.0 && promotions > 0 ==> best > start * Pow(1.0 + knobs.epsilon, promotions)
      ensures measured <= (promotions + 1) * Patience()
      ensures BestIsMeasured(xs)
      ensures start > 0.0 && knobs.epsilon > 0.0 && (forall x :: x in xs ==> x.score <= M) ==>
                Bounded(start, knobs.epsilon, Top(start, M), promotions, measured, Patience())
    {
      taken, done, course := 0, false, [Now()];
      while !done && taken < |xs| && iter < maxIters
        invariant Valid() && taken <= |xs|
        invariant noImprove <= Patience() && (!done ==> noImprove < Patience())
        invariant BestIsMeasured(xs)
        invariant Tracks(knobs, xs, course, done, maxIters, old(Now()), taken, Now())
        decreases |xs| - taken
      {
        assert xs[taken] in xs;
        ghost var s := Now();
        done := Iterate(xs[taken]);
        TracksNext(knobs, xs, course, maxIters, old(Now()), taken, s, Now(), done);
        course := course + [Now()];
        taken := taken + 1;
      }
      MeasuredCount(knobs, xs, course, done, taken);
      AtEnd(xs, M);
    }

    ghost predicate BestIsMeasured(xs: seq<Iteration>)
      reads this
    {
      promotions > 0 ==> exists x :: x in xs && x.score == best
    }

    /** What the invariant says when the loop is over. */
    lemma AtEnd(xs: seq<Iteration>, M: real)
      requires Valid() && noImprove <= Patience() && BestIsMeasured(xs)
      ensures measured <= (promotions + 1) * Patience()
      ensures start > 0.0 && knobs.epsilon > 0.0 && (forall x :: x in xs ==> x.score <= M) ==>
                Bounded(start, knobs.epsilon, Top(start, M), promotions, measured, Patience())
    {
      assert (promotions + 1) * Patience() == promotions * Patience() + Patience();
      if start > 0.0 && knobs.epsilon > 0.0 && forall x :: x in xs ==> x.score <= M {
        BoundedBoth(start, best, knobs.epsilon, promotions, Top(start, M), measured, Patience());
      }
    }
  }

  /** A promotion multiplies the champion's score by more than 1 + e. */
  lemma Growth(start: real, best: real, score: real, e: real, k: nat)
    requires e >= 0.0 && score > best * (1.0 + e)
    ensures start > 0.0 && best >= start * Pow(1.0 + e, k) ==> score > start * Pow(1.0 + e, k + 1)
  {
    if start > 0.0 && best >= start * Pow(1.0 + e, k) {
      var p := Pow(1.0 + e, k);
      assert (best - start * p) * (1.0 + e) >= 0.0;
      assert start * p * (1.0 + e) == start * ((1.0 + e) * p);
    }
  }

  /** Bounded scores bound the promotions: a champion that scores at most M after k
      promotions from a positive score. */
  lemma BoundedPromotions(start: real, best: real, e: real, k: nat, M: real)
    requires start > 0.0 && e > 0.0 && best <= M && best >= start * Pow(1.0 + e, k)
    ensures (1.0 + k as real * e) * start <= M
  {
    Bernoulli(e, k);
    Scale(1.0 + k as real * e, Pow(1.0 + e, k), start);
  }

  /** And with the promotions the measurements. */
  lemma BoundedWork(start: real, best: real, e: real, k: nat, M: real, measured: nat, patience: nat)
    requires start > 0.0 && e > 0.0 && best <= M && best >= start * Pow(1.0 + e, k)
    requires measured <= (k + 1) * patience
    ensures measured as real * (e * start) <= (M - start + e * start) * patience as real
  {
    BoundedPromotions(start, best, e, k, M);
    var n, p, d := (k + 1) as real, patience as real, e * start;
    assert measured as real <= n * p by { assert ((k + 1) * patience) as real == n * p; }
    assert n * d <= M - start + d by {
      assert n * d == (k as real * e) * start + d;
      assert (1.0 + k as real * e) * start == start + (k as real * e) * start;
    }
    Chain(measured as real, n, p, d, M - start + d);
  }

  lemma BoundedBoth(start: real, best: real, e: real, k: nat, M: real, measured: nat, patience: nat)
    requires start > 0.0 && e > 0.0 && best <= M && best >= start * Pow(1.0 + e, k)
    requires measured <= (k + 1) * patience
    ensures Bounded(start, e, M, k, measured, patience)
  {
    BoundedPromotions(start, best, e, k, M);
    BoundedWork(start, best, e, k, M, measured, patience);
  }

  lemma Chain(m: real, n: real, p: real, d: real, x: real)
    requires m <= n * p && n * d <= x && p >= 0.0 && d >= 0.0
    ensures m * d <= x * p
  {
    Scale(m, n * p, d);
    Scale(n * d, x, p);
    assert (n * p) * d == (n * d) * p;
  }

  lemma Scale(a: real, b: real, c: real)
    requires a <= b && c >= 0.0
    ensures a * c <= b * c
  {
    assert (b - a) * c >= 0.0;
  }
}
