/**
 * The GPU lease pool of server/app/gpu_pool.py: a FIFO queue of free
 * device ids with a cap that only limits how far `release` lets the queue
 * grow. Device discovery reads two environment variables and, failing those,
 * the output of `nvidia-smi`; both arrive here as values.
 */
module GpuPool {
  import opened Wrappers
  import opened Text

  /** What running `nvidia-smi --query-gpu=index --format=csv,noheader` gave. */
  datatype SmiResult = SmiFailed | SmiOutput(stdout: string)

  /** The inputs of device discovery. */
  datatype Discovery = Discovery(
    cudaVisible: Option<string>,    // CUDA_VISIBLE_DEVICES
    nvidiaVisible: Option<string>,  // NVIDIA_VISIBLE_DEVICES
    smi: SmiResult)

  /** `os.environ.get("CUDA_VISIBLE_DEVICES") or os.environ.get("NVIDIA_VISIBLE_DEVICES")` */
  function DeviceEnv(d: Discovery): Option<string> {
    if d.cudaVisible.Some? && d.cudaVisible.value != "" then d.cudaVisible else d.nvidiaVisible
  }

  /** `query_available_gpus()`: the device ids discovery finds. */
  function QueryAvailableGpus(d: Discovery): seq<string> {
    var env := DeviceEnv(d);
    if env.Some? && env.value != "" then CommaList(env.value)
    else
      match d.smi
      case SmiFailed => []
      case SmiOutput(out) => TrimmedPieces(SplitLines(out))
  }

  /**
   * A non-empty CUDA_VISIBLE_DEVICES decides; an empty or missing one falls
   * through to NVIDIA_VISIBLE_DEVICES; only when both are empty or missing is
   * `nvidia-smi` consulted, and its failure yields no ids.
   */
  lemma DiscoveryOrder(d: Discovery)
    ensures d.cudaVisible.Some? && d.cudaVisible.value != "" ==>
      QueryAvailableGpus(d) == CommaList(d.cudaVisible.value)
    ensures (d.cudaVisible.None? || d.cudaVisible.value == "") &&
            d.nvidiaVisible.Some? && d.nvidiaVisible.value != "" ==>
      QueryAvailableGpus(d) == CommaList(d.nvidiaVisible.value)
    ensures (d.cudaVisible.None? || d.cudaVisible.value == "") &&
            (d.nvidiaVisible.None? || d.nvidiaVisible.value == "") ==>
      QueryAvailableGpus(d) == (if d.smi.SmiFailed? then [] else TrimmedPieces(SplitLines(d.smi.stdout)))
  {
  }

  /**
   * Every discovered id is non-empty, has no surrounding whitespace, and
   * holds no comma (from the environment) or line break (from `nvidia-smi`).
   */
  lemma {:induction false} DiscoveredIdsAreClean(d: Discovery, i: nat)
    requires i < |QueryAvailableGpus(d)|
    ensures var id := QueryAvailableGpus(d)[i];
      id != [] && IsStripped(id)
      && (DeviceEnv(d).Some? && DeviceEnv(d).value != "" ==> ',' !in id)
      && (!(DeviceEnv(d).Some? && DeviceEnv(d).value != "") ==> forall k :: 0 <= k < |id| ==> !IsLineBreak(id[k]))
  {
    var env := DeviceEnv(d);
    if !(env.Some? && env.value != "") && d.smi.SmiOutput? {
      var lines := SplitLines(d.smi.stdout);
      var j := TrimmedPiecesFrom(lines, i);
      var id := QueryAvailableGpus(d)[i];
      forall k | 0 <= k < |id| ensures !IsLineBreak(id[k]) {
        StripChars(lines[j], id[k]);
        var m :| 0 <= m < |lines[j]| && lines[j][m] == id[k];
      }
    }
  }

  /** The ids the pool is built from: the given ones, or discovery's when none are given. */
  function CandidateIds(gpuIds: Option<seq<string>>, d: Discovery): seq<string> {
    if gpuIds.None? then QueryAvailableGpus(d) else gpuIds.value
  }

  /**
   * The pool's initial queue: the candidate ids in their order, or the single
   * id "cpu" when there are none. It is never empty.
   */
  function InitialIds(gpuIds: Option<seq<string>>, d: Discovery): (r: seq<string>)
    ensures r != []
    ensures CandidateIds(gpuIds, d) != [] ==> r == CandidateIds(gpuIds, d)
    ensures CandidateIds(gpuIds, d) == [] ==> r == ["cpu"]
  {
    var ids := CandidateIds(gpuIds, d);
    if ids == [] then ["cpu"] else ids
  }

  /** An explicit empty list gives "cpu" without running discovery. */
  lemma EmptyListMeansCpu(d: Discovery)
    ensures InitialIds(Some([]), d) == ["cpu"]
  {
  }

  /**
   * `max_slots or len(gpu_list)`: a missing or zero cap becomes the number of
   * ids; any other value, negative ones included, is kept.
   */
  function EffectiveMaxSlots(maxSlots: Option<int>, count: nat): (r: int)
    ensures maxSlots.None? || maxSlots.value == 0 ==> r == count
    ensures maxSlots.Some? && maxSlots.value != 0 ==> r == maxSlots.value
  {
    if maxSlots.None? || maxSlots.value == 0 then count else maxSlots.value
  }

  /** `release` on the queue: append unless it already holds `maxSlots` ids. */
  function ReleaseQueue(q: seq<string>, maxSlots: int, id: string): (r: seq<string>)
    ensures |q| >= maxSlots ==> r == q
    ensures |q| < maxSlots ==> |r| == |q| + 1 && r[..|q|] == q && r[|q|] == id
  {
    if |q| >= maxSlots then q else q + [id]
  }

  function Max(a: int, b: int): (m: int)
    ensures m >= a && m >= b && (m == a || m == b)
  {
    if a >= b then a else b
  }

  /** One call made on the pool. */
  datatype PoolOp = AcquireOp | ReleaseOp(id: string)

  /**
   * The pool as a trace sees it: the free queue and the multiset of ids its
   * callers hold. An acquire on an empty queue waits, so it changes nothing
   * here.
   */
  datatype Leases = Leases(free: seq<string>, held: multiset<string>)

  function Step(s: Leases, maxSlots: int, op: PoolOp): Leases {
    match op
    case AcquireOp =>
      if s.free == [] then s else Leases(s.free[1..], s.held + multiset{s.free[0]})
    case ReleaseOp(id) =>
      Leases(ReleaseQueue(s.free, maxSlots, id), s.held - multiset{id})
  }

  function Run(s: Leases, maxSlots: int, ops: seq<PoolOp>): Leases
    decreases |ops|
  {
    if ops == [] then s else Run(Step(s, maxSlots, ops[0]), maxSlots, ops[1..])
  }

  /**
   * Whatever the calls, the free queue never grows beyond the larger of its
   * initial length and the cap.
   */
  lemma {:induction false} QueueStaysBounded(s: Leases, maxSlots: int, ops: seq<PoolOp>)
    ensures |Run(s, maxSlots, ops).free| <= Max(|s.free|, maxSlots)
    decreases |ops|
  {
    if ops != [] {
      var s' := Step(s, maxSlots, ops[0]);
      assert |s'.free| <= Max(|s.free|, maxSlots);
      QueueStaysBounded(s', maxSlots, ops[1..]);
    }
  }

  /** Every release hands back an id its caller holds. */
  predicate ReleasesWhatIsHeld(s: Leases, maxSlots: int, ops: seq<PoolOp>)
    decreases |ops|
  {
    ops == [] ||
    ((ops[0].ReleaseOp? ==> ops[0].id in s.held) &&
     ReleasesWhatIsHeld(Step(s, maxSlots, ops[0]), maxSlots, ops[1..]))
  }

  /**
   * When the cap is at least the number of ids in circulation and callers
   * release only what they hold, no id is ever lost or duplicated: the free
   * queue and the held ids together are always the ids the pool started with.
   */
  lemma {:induction false} LeasesConserved(s: Leases, maxSlots: int, ops: seq<PoolOp>)
    requires |s.free| + |s.held| <= maxSlots
    requires ReleasesWhatIsHeld(s, maxSlots, ops)
    ensures multiset(Run(s, maxSlots, ops).free) + Run(s, maxSlots, ops).held
            == multiset(s.free) + s.held
    decreases |ops|
  {
    if ops != [] {
      var s' := Step(s, maxSlots, ops[0]);
      match ops[0] {
        case AcquireOp =>
          if s.free != [] {
            assert s.free == [s.free[0]] + s.free[1..];
            assert multiset(s.free) == multiset{s.free[0]} + multiset(s.free[1..]);
          }
        case ReleaseOp(id) =>
          assert |s.free| < maxSlots;
          assert s'.free == s.free + [id];
          assert s.held == s'.held + multiset{id};
      }
      LeasesConserved(s', maxSlots, ops[1..]);
    }
  }

  /**
   * The cap does not limit acquires: a pool of three ids with a cap of two
   * hands out all three.
   */
  lemma CapDoesNotGateAcquire()
    ensures var s := Run(Leases(["0", "1", "2"], multiset{}), 2, [AcquireOp, AcquireOp, AcquireOp]);
      s.free == [] && s.held == multiset{"0", "1", "2"}
  {
  }

  /**
   * With more ids than the cap, a release can drop the id it is given: the
   * pool then circulates fewer ids than it started with.
   */
  lemma ReleaseCanDropAnId()
    ensures var s := Run(Leases(["0", "1", "2"], multiset{}), 2, [AcquireOp, ReleaseOp("0")]);
      s.free == ["1", "2"] && s.held == multiset{}
  {
  }

  /** A release of an id the pool never handed out is accepted, and may duplicate an id. */
  lemma ReleaseAcceptsAnyId()
    ensures Run(Leases(["0"], multiset{}), 2, [ReleaseOp("0")]).free == ["0", "0"]
  {
  }

  /** Calls recorded on a pool object. */
  datatype LeaseEvent = Acquired(id: string) | Released(id: string)

  /** What a reserved block ended with. */
  datatype Reservation<T> = WouldBlock | Ran(gpu: string, value: T)

  /** `GpuPool`: the free queue `_available` and the cap `_max_slots`. */
  class Pool {
    var available: seq<string>
    const maxSlots: int
    /** The queue never holds more ids than this. */
    ghost const bound: int
    /** Every acquire and release made on this pool, in order. */
    ghost var events: seq<LeaseEvent>

    ghost predicate Valid()
      reads this
    {
      |available| <= bound && maxSlots <= bound
    }

    /** `GpuPool(gpu_ids, max_slots)`. */
    constructor (gpuIds: Option<seq<string>>, maxSlotsArg: Option<int>, discovery: Discovery)
      ensures Valid()
      ensures available == InitialIds(gpuIds, discovery)
      ensures maxSlots == EffectiveMaxSlots(maxSlotsArg, |available|)
      ensures bound == Max(|available|, maxSlots)
      ensures events == []
    {
      var ids := InitialIds(gpuIds, discovery);
      available := ids;
      maxSlots := EffectiveMaxSlots(maxSlotsArg, |ids|);
      bound := Max(|ids|, EffectiveMaxSlots(maxSlotsArg, |ids|));
      events := [];
    }

    /**
     * `acquire()`: takes the front id and keeps the rest in order. On an
     * empty queue the caller would wait for a release; that is reported as
     * `None`, with nothing changed.
     */
    method Acquire() returns (id: Option<string>)
      requires Valid()
      modifies this`available, this`events
      ensures Valid()
      ensures id.None? <==> old(available) == []
      ensures id.None? ==> available == old(available) && events == old(events)
      ensures id.Some? ==> id.value == old(available)[0] && available == old(available)[1..]
      ensures id.Some? ==> events == old(events) + [Acquired(id.value)]
    {
      if available == [] {
        id := None;
      } else {
        id := Some(available[0]);
        available := available[1..];
        events := events + [Acquired(id.value)];
      }
    }

    /**
     * `release(gpu_id)`: appends the id, whatever it is, unless the queue
     * already holds `maxSlots` ids.
     */
    method Release(id: string)
      requires Valid()
      modifies this`available, this`events
      ensures Valid()
      ensures available == ReleaseQueue(old(available), maxSlots, id)
      ensures events == old(events) + [Released(id)]
    {
      if |available| < maxSlots {
        available := available + [id];
      }
      events := events + [Released(id)];
    }

    /**
     * `with pool.reserve() as gpu_id: body(gpu_id)`: the id taken from the
     * front is released exactly once after the body, whatever the body
     * returns; `T` carries the body's normal result or the exception it
     * raised.
     */
    method Reserve<T>(body: string -> T) returns (r: Reservation<T>)
      requires Valid()
      modifies this`available, this`events
      ensures Valid()
      ensures r.WouldBlock? <==> old(available) == []
      ensures r.WouldBlock? ==> available == old(available) && events == old(events)
      ensures r.Ran? ==> r.gpu == old(available)[0] && r.value == body(r.gpu)
      ensures r.Ran? ==> events == old(events) + [Acquired(r.gpu), Released(r.gpu)]
      ensures r.Ran? ==> available == ReleaseQueue(old(available)[1..], maxSlots, r.gpu)
    {
      var id := Acquire();
      if id.None? {
        return WouldBlock;
      }
      var value := body(id.value);
      Release(id.value);
      r := Ran(id.value, value);
    }
  }
}
