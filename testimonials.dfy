/** The testimonial carousel: an index into a fixed list of four testimonials,
    advanced by a 5-second interval, by the previous/next arrows and by the dots
    under the card. */
module Testimonials {

  /** The authors of the fixed testimonial list, in display order. Only its
      length matters to the carousel. */
  const Authors: seq<string> := ["Sarah Chen", "Marcus Rodriguez", "Emma Thompson", "David Kim"]

  /** testimonials.length */
  const Count: nat := |Authors|

  predicate InRange(k: int) {
    0 <= k < Count
  }

  /** The updater used by both the interval and the next arrow. JavaScript's `%`
      truncates, Dafny's is Euclidean; they agree because `k + 1` is never negative. */
  function NextIndex(k: int): (r: int)
    requires InRange(k)
    ensures InRange(r)
    ensures r == if k == Count - 1 then 0 else k + 1
  {
    (k + 1) % Count
  }

  /** The previous arrow adds the length before taking the remainder, so the
      dividend is never negative and the two remainders agree again. */
  function PrevIndex(k: int): (r: int)
    requires InRange(k)
    ensures InRange(r)
    ensures r == if k == 0 then Count - 1 else k - 1
  {
    (k - 1 + Count) % Count
  }

  lemma PrevAfterNext(k: int)
    requires InRange(k)
    ensures PrevIndex(NextIndex(k)) == k
  {
  }

  lemma NextAfterPrev(k: int)
    requires InRange(k)
    ensures NextIndex(PrevIndex(k)) == k
  {
  }

  /** What changes the index: the auto-advance interval, the two arrows and a dot. */
  datatype Action = AutoAdvance | Next | Prev | Select(index: int)

  /** A dot can only be clicked for a position of the list. */
  predicate ValidAction(a: Action) {
    a.Select? ==> InRange(a.index)
  }

  function Apply(k: int, a: Action): (k': int)
    requires InRange(k) && ValidAction(a)
    ensures InRange(k')
    ensures a.Select? ==> k' == a.index
  {
    match a
    case AutoAdvance => NextIndex(k)
    case Next => NextIndex(k)
    case Prev => PrevIndex(k)
    case Select(i) => i
  }

  /** The index after a sequence of actions, starting from `k`. */
  function Run(k: int, actions: seq<Action>): int
    requires InRange(k)
    requires forall j :: 0 <= j < |actions| ==> ValidAction(actions[j])
    decreases |actions|
  {
    if actions == [] then k else Run(Apply(k, actions[0]), actions[1..])
  }

  /** The index starts at 0 and stays a position of the list whatever happens. */
  lemma {:induction false} RunStaysInRange(k: int, actions: seq<Action>)
    requires InRange(k)
    requires forall j :: 0 <= j < |actions| ==> ValidAction(actions[j])
    ensures InRange(Run(k, actions))
    decreases |actions|
  {
    if actions != [] {
      RunStaysInRange(Apply(k, actions[0]), actions[1..]);
    }
  }

  lemma AutoAdvanceIsNext(k: int)
    requires InRange(k)
    ensures Apply(k, AutoAdvance) == Apply(k, Next)
  {
  }

  /** A dot click forgets where the carousel was. */
  lemma SelectIgnoresPrevious(k: int, k': int, i: int)
    requires InRange(k) && InRange(k') && InRange(i)
    ensures Apply(k, Select(i)) == Apply(k', Select(i)) == i
  {
  }

  /** `n` presses of the next arrow. */
  function NextTimes(k: int, n: nat): (r: int)
    requires InRange(k)
    ensures InRange(r)
    decreases n
  {
    if n == 0 then k else NextTimes(NextIndex(k), n - 1)
  }

  /** `n` presses of the previous arrow. */
  function PrevTimes(k: int, n: nat): (r: int)
    requires InRange(k)
    ensures InRange(r)
    decreases n
  {
    if n == 0 then k else PrevTimes(PrevIndex(k), n - 1)
  }

  lemma {:induction false} NextTimesIsModular(k: int, n: nat)
    requires InRange(k)
    ensures NextTimes(k, n) == (k + n) % Count
    decreases n
  {
    if n > 0 {
      NextTimesIsModular(NextIndex(k), n - 1);
    }
  }

  lemma {:induction false} PrevTimesIsModular(k: int, n: nat)
    requires InRange(k)
    ensures PrevTimes(k, n) == (k - n) % Count
    decreases n
  {
    if n > 0 {
      PrevTimesIsModular(PrevIndex(k), n - 1);
    }
  }

  /** Four steps in either direction come back to the start: the list has four entries. */
  lemma FullCycle(k: int)
    requires InRange(k)
    ensures NextTimes(k, Count) == k
    ensures PrevTimes(k, Count) == k
  {
    NextTimesIsModular(k, Count);
    PrevTimesIsModular(k, Count);
  }

  /** The dots under the card: entry `i` is drawn as the active dot. */
  function Dots(current: int): (dots: seq<bool>)
    ensures |dots| == Count
  {
    seq(Count, i => i == current)
  }

  /** Exactly one dot is active, and it is the one at the current index. */
  lemma ExactlyOneActiveDot(current: int)
    requires InRange(current)
    ensures (set i | 0 <= i < Count && Dots(current)[i]) == {current}
    ensures |set i | 0 <= i < Count && Dots(current)[i]| == 1
  {
    var active := set i | 0 <= i < Count && Dots(current)[i];
    assert current in active;
    assert forall i :: i in active ==> i == current;
    assert active == {current};
  }

  /** The component's state: `currentTestimonial`. */
  class Carousel {
    var current: int

    ghost predicate Valid()
      reads this
    {
      InRange(current)
    }

    /** `useState(0)` */
    constructor ()
      ensures Valid() && current == 0
    {
      current := 0;
    }

    /** The 5-second interval callback. */
    method AutoAdvance()
      requires Valid()
      modifies this
      ensures Valid() && current == Apply(old(current), Action.AutoAdvance)
    {
      current := (current + 1) % Count;
    }

    /** `nextTestimonial` */
    method Next()
      requires Valid()
      modifies this
      ensures Valid() && current == Apply(old(current), Action.Next)
    {
      current := (current + 1) % Count;
    }

    /** `prevTestimonial` */
    method Prev()
      requires Valid()
      modifies this
      ensures Valid() && current == Apply(old(current), Action.Prev)
    {
      current := (current - 1 + Count) % Count;
    }

    /** The `onClick` of dot `index`. */
    method Select(index: int)
      requires Valid() && InRange(index)
      modifies this
      ensures Valid() && current == Apply(old(current), Action.Select(index))
    {
      current := index;
    }

    /** The class of dot `index`: whether it is drawn as the active one. */
    function IsActiveDot(index: int): (active: bool)
      reads this
      requires Valid() && InRange(index)
      ensures active == Dots(current)[index]
    {
      index == current
    }
  }
}
