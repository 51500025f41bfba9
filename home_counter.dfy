/**
  The home occupancy counter as values: a signed count per position, where a position
  never touched reads 0. It is a plain tally of the updates made, with no floor at zero
  and no link to where commuters actually live.
 */
module HomeCounter {

  import opened Wrappers
  import opened Agents

  /** The count a `defaultdict(int)` reads at `p`. */
  function Count(counter: map<Position, int>, p: Position): int
  {
    if p in counter then counter[p] else 0
  }

  /** One `update_home_counter(oldHome, newHome)`: a decrement at the previous home when
      there is one, then an increment at the new home. */
  function Step(counter: map<Position, int>, oldHome: Option<Position>, newHome: Position): (r: map<Position, int>)
    ensures forall p :: Count(r, p) == Count(counter, p)
                                       - (if oldHome == Some(p) then 1 else 0)
                                       + (if p == newHome then 1 else 0)
    ensures r.Keys == counter.Keys + {newHome} + (if oldHome.Some? then {oldHome.value} else {})
  {
    var dec := if oldHome.Some? then counter[oldHome.value := Count(counter, oldHome.value) - 1] else counter;
    dec[newHome := Count(dec, newHome) + 1]
  }

  /** The arguments of one `update_home_counter` call. */
  datatype HomeUpdate = HomeUpdate(oldHome: Option<Position>, newHome: Position)

  /** The counter after a sequence of updates, applied in order. */
  function Replay(counter: map<Position, int>, updates: seq<HomeUpdate>): map<Position, int>
  {
    if updates == [] then counter
    else
      var last := updates[|updates| - 1];
      Step(Replay(counter, updates[..|updates| - 1]), last.oldHome, last.newHome)
  }

  /** How many of the updates move a home to `p`. */
  function Increments(updates: seq<HomeUpdate>, p: Position): nat
  {
    if updates == [] then 0
    else Increments(updates[..|updates| - 1], p) + (if updates[|updates| - 1].newHome == p then 1 else 0)
  }

  /** How many of the updates move a home away from `p`. */
  function Decrements(updates: seq<HomeUpdate>, p: Position): nat
  {
    if updates == [] then 0
    else Decrements(updates[..|updates| - 1], p) + (if updates[|updates| - 1].oldHome == Some(p) then 1 else 0)
  }

  /** After any sequence of updates the count at `p` is its starting count plus the
      increments at `p` minus the decrements at `p`. */
  lemma {:induction false} ReplayNet(counter: map<Position, int>, updates: seq<HomeUpdate>, p: Position)
    ensures Count(Replay(counter, updates), p) == Count(counter, p) + Increments(updates, p) - Decrements(updates, p)
  {
    if updates != [] {
      ReplayNet(counter, updates[..|updates| - 1], p);
    }
  }

  lemma {:induction false} TalliesConcat(us: seq<HomeUpdate>, vs: seq<HomeUpdate>, p: Position)
    ensures Increments(us + vs, p) == Increments(us, p) + Increments(vs, p)
    ensures Decrements(us + vs, p) == Decrements(us, p) + Decrements(vs, p)
  {
    if vs == [] {
      assert us + vs == us;
    } else {
      var init := vs[..|vs| - 1];
      TalliesConcat(us, init, p);
      assert (us + vs)[..|us + vs| - 1] == us + init;
    }
  }

  /** The counts do not depend on the order in which two runs of updates are made. */
  lemma ReplayOrderIndependent(counter: map<Position, int>, us: seq<HomeUpdate>, vs: seq<HomeUpdate>, p: Position)
    ensures Count(Replay(counter, us + vs), p) == Count(Replay(counter, vs + us), p)
  {
    ReplayNet(counter, us + vs, p);
    ReplayNet(counter, vs + us, p);
    TalliesConcat(us, vs, p);
    TalliesConcat(vs, us, p);
  }

}
