/** The quiz's choice of the next question: draw a random candidate from the pool until
    one comes up whose id the player has not seen yet. The random source is a stream
    `rand`, where `rand(i)` is the index the `i`-th call of `randint(0, len(pool) - 1)`
    returns. */
module Quiz {
  import opened Options
  import opened Pagination
  import opened Records

  /** The candidates: every question for category 0, otherwise those of that category. */
  function QuizPool(qs: seq<Question>, categoryId: int): (r: seq<Question>)
    ensures |r| <= |qs|
    ensures categoryId == 0 ==> r == qs
    ensures forall q :: q in r ==> q in qs
  {
    if categoryId == 0 then qs else InCategory(qs, categoryId)
  }

  /** The pool holds every question for category 0 and otherwise exactly the questions
      of the requested category. */
  lemma QuizPoolMembers(qs: seq<Question>, categoryId: int)
    ensures forall q :: q in QuizPool(qs, categoryId) <==>
      q in qs && (categoryId == 0 || q.category == Number(categoryId))
  {
    InCategoryMembers(qs, categoryId);
  }

  /** Every draw is a valid index of the pool, as `randint(0, len - 1)` guarantees. */
  ghost predicate DrawsInRange(rand: nat -> int, size: nat)
  {
    forall i: nat :: 0 <= rand(i) < size
  }

  /** The draws are in range and draw number `hit` brings up an unseen question. */
  ghost predicate ReachesUnseen(pool: seq<Question>, previous: seq<int>, rand: nat -> int, hit: nat)
  {
    DrawsInRange(rand, |pool|) && pool[rand(hit)].id !in previous
  }

  /** The rejection loop. It stops at the first draw whose id is not in `previous` and
      reports how many redraws it made. */
  method DrawUnseen(pool: seq<Question>, previous: seq<int>, rand: nat -> int, ghost hit: nat)
      returns (next: Question, redraws: nat)
    requires ReachesUnseen(pool, previous, rand, hit)
    ensures next in pool && next.id !in previous
    ensures redraws <= hit && next == pool[rand(redraws)]
    ensures forall j: nat :: j < redraws ==> pool[rand(j)].id in previous
  {
    redraws := 0;
    next := pool[rand(0)];
    var found := true;
    while found
      invariant redraws <= hit
      invariant next == pool[rand(redraws)]
      invariant forall j: nat :: j < redraws ==> pool[rand(j)].id in previous
      invariant !found ==> next.id !in previous
      decreases hit - redraws, found
    {
      if next.id in previous {
        redraws := redraws + 1;
        next := pool[rand(redraws)];
      } else {
        found := false;
      }
    }
  }

  /** When every candidate has been seen, no draw is ever accepted: the loop can only end
      if the pool holds an unseen question. */
  lemma {:induction false} AllSeenNeverStops(pool: seq<Question>, previous: seq<int>, rand: nat -> int)
    requires DrawsInRange(rand, |pool|)
    requires forall q :: q in pool ==> q.id in previous
    ensures forall hit: nat :: !ReachesUnseen(pool, previous, rand, hit)
  {
    forall hit: nat ensures !ReachesUnseen(pool, previous, rand, hit) {
      assert pool[rand(hit)] in pool;
    }
  }

  /** Conversely, an unseen candidate at index `k` can be drawn: the stream that always
      picks `k` stops at once. */
  lemma UnseenIsReachable(pool: seq<Question>, previous: seq<int>, k: nat)
    requires k < |pool| && pool[k].id !in previous
    ensures ReachesUnseen(pool, previous, (_: nat) => k as int, 0)
  {
  }
}
