/** Module load and unload of the character device: the four ordered
 *  registration steps with rollback on failure, and the teardown.
 *
 *  The kernel calls themselves are opaque; each is recorded as an event in a
 *  ghost log, and the resources the module holds are the stack obtained by
 *  replaying that log. */
module CharDevRegistration {

  /** A device number: its major and minor parts. */
  datatype DevT = DevT(major: nat, minor: nat)

  function MkDev(major: nat, minor: nat): DevT
  {
    DevT(major, minor)
  }

  function Major(d: DevT): nat
  {
    d.major
  }

  /** The registration steps of module load. */
  datatype Step = AllocRegion | AddCdev | CreateClass | CreateDevice

  /** The order in which module load attempts the steps. */
  const Order: seq<Step> := [AllocRegion, AddCdev, CreateClass, CreateDevice]

  /** A resource the module holds in the kernel: the device-number region,
   *  the added cdev, the device class and the device node. */
  datatype Resource = Region(dev: DevT) | Cdev | Class | Device(dev: DevT)

  function StepOf(r: Resource): Step
  {
    match r
    case Region(_) => AllocRegion
    case Cdev => AddCdev
    case Class => CreateClass
    case Device(_) => CreateDevice
  }

  /** One kernel call: a step that succeeded, a step that failed, or the
   *  release of a held resource. */
  datatype Event = Acquired(res: Resource) | Failed(step: Step) | Released(res: Resource)

  /** The kernel's answers during one module load: the steps whose call fails,
   *  and the major number the device-number allocation hands out. */
  datatype Kernel = Kernel(failing: set<Step>, major: nat)

  /** The device number allocated on load: the kernel's major with base minor 0. */
  function AllocatedDev(kernel: Kernel): DevT
  {
    MkDev(kernel.major, 0)
  }

  /** The resources of a fully registered device, in acquisition order. */
  function Acquisitions(d: DevT): seq<Resource>
  {
    [Region(d), Cdev, Class, Device(d)]
  }

  /** Index in Order of the first step that fails, or |Order| when none does. */
  function FirstFailure(failing: set<Step>): (k: nat)
    ensures k <= |Order|
    ensures forall j :: 0 <= j < k ==> Order[j] !in failing
    ensures k < |Order| ==> Order[k] in failing
  {
    if AllocRegion in failing then 0
    else if AddCdev in failing then 1
    else if CreateClass in failing then 2
    else if CreateDevice in failing then 3
    else 4
  }

  /** The held resources after one event, most recent last. A release of
   *  anything but the most recently acquired resource changes nothing. */
  function Apply(held: seq<Resource>, e: Event): seq<Resource>
  {
    match e
    case Acquired(r) => held + [r]
    case Failed(_) => held
    case Released(r) => if held != [] && held[|held| - 1] == r then held[..|held| - 1] else held
  }

  /** The held resources after replaying `log` from `held`. */
  function Replay(held: seq<Resource>, log: seq<Event>): seq<Resource>
    decreases |log|
  {
    if log == [] then held else Replay(Apply(held, log[0]), log[1..])
  }

  /** The resources held after `log`, starting from nothing. */
  function Held(log: seq<Event>): seq<Resource>
  {
    Replay([], log)
  }

  /** Every release in `log` (replayed from `held`) gives back the resource
   *  acquired last among those still held. */
  ghost predicate Lifo(held: seq<Resource>, log: seq<Event>)
    decreases |log|
  {
    log == [] ||
    ((log[0].Released? ==> held != [] && held[|held| - 1] == log[0].res) &&
     Lifo(Apply(held, log[0]), log[1..]))
  }

  /** The resources acquired in `log`, in log order. */
  function Acquires(log: seq<Event>): seq<Resource>
    decreases |log|
  {
    if log == [] then []
    else (if log[0].Acquired? then [log[0].res] else []) + Acquires(log[1..])
  }

  /** The resources released in `log`, in log order. */
  function Releases(log: seq<Event>): seq<Resource>
    decreases |log|
  {
    if log == [] then []
    else (if log[0].Released? then [log[0].res] else []) + Releases(log[1..])
  }

  /** The steps attempted in `log` (successful or not), in log order. */
  function Attempts(log: seq<Event>): seq<Step>
    decreases |log|
  {
    if log == [] then []
    else (match log[0]
          case Acquired(r) => [StepOf(r)]
          case Failed(s) => [s]
          case Released(_) => []) + Attempts(log[1..])
  }

  function Reversed<T>(s: seq<T>): seq<T>
  {
    seq(|s|, i requires 0 <= i < |s| => s[|s| - 1 - i])
  }

  function StepsOf(p: seq<Resource>): seq<Step>
  {
    seq(|p|, i requires 0 <= i < |p| => StepOf(p[i]))
  }

  /** Acquisition events for `p`, in order. */
  function AcquireAll(p: seq<Resource>): seq<Event>
  {
    seq(|p|, i requires 0 <= i < |p| => Acquired(p[i]))
  }

  /** Release events that undo `p`, last acquired first. */
  function Unwind(p: seq<Resource>): seq<Event>
  {
    seq(|p|, i requires 0 <= i < |p| => Released(p[|p| - 1 - i]))
  }

  /** The log module load produces: the steps before the first failing one
   *  succeed; on a failure that step is logged and the acquired ones are
   *  undone last first. */
  function InitLog(kernel: Kernel): seq<Event>
  {
    var k := FirstFailure(kernel.failing);
    var got := Acquisitions(AllocatedDev(kernel))[..k];
    if k == |Order| then AcquireAll(got)
    else AcquireAll(got) + [Failed(Order[k])] + Unwind(got)
  }

  /** The log module unload produces for the device number `d`. */
  function ExitLog(d: DevT): seq<Event>
  {
    [Released(Device(d)), Released(Class), Released(Cdev), Released(Region(d))]
  }

  lemma {:induction false} ReplayAppend(held: seq<Resource>, a: seq<Event>, b: seq<Event>)
    ensures Replay(held, a + b) == Replay(Replay(held, a), b)
    decreases |a|
  {
    if a != [] {
      assert (a + b)[1..] == a[1..] + b;
      ReplayAppend(Apply(held, a[0]), a[1..], b);
    } else {
      assert a + b == b;
    }
  }

  lemma {:induction false} LifoAppend(held: seq<Resource>, a: seq<Event>, b: seq<Event>)
    ensures Lifo(held, a + b) <==> Lifo(held, a) && Lifo(Replay(held, a), b)
    decreases |a|
  {
    if a != [] {
      assert (a + b)[1..] == a[1..] + b;
      assert (a + b)[0] == a[0];
      LifoAppend(Apply(held, a[0]), a[1..], b);
    } else {
      assert a + b == b;
    }
  }

  lemma {:induction false} ListsAppend(a: seq<Event>, b: seq<Event>)
    ensures Acquires(a + b) == Acquires(a) + Acquires(b)
    ensures Releases(a + b) == Releases(a) + Releases(b)
    ensures Attempts(a + b) == Attempts(a) + Attempts(b)
    decreases |a|
  {
    if a != [] {
      assert (a + b)[1..] == a[1..] + b;
      assert (a + b)[0] == a[0];
      ListsAppend(a[1..], b);
    } else {
      assert a + b == b;
    }
  }

  /** Acquiring `p` pushes it, in order, onto the held resources. */
  lemma {:induction false} AcquireAllPushes(held: seq<Resource>, p: seq<Resource>)
    ensures Replay(held, AcquireAll(p)) == held + p
    ensures Lifo(held, AcquireAll(p))
    decreases |p|
  {
    if p != [] {
      assert AcquireAll(p)[1..] == AcquireAll(p[1..]);
      AcquireAllPushes(held + [p[0]], p[1..]);
      assert held + [p[0]] + p[1..] == held + p;
    } else {
      assert held + p == held;
    }
  }

  /** The steps attempted by acquiring `p` are the steps of `p`, and nothing
   *  is released. */
  lemma {:induction false} AcquireAllLists(p: seq<Resource>)
    ensures Acquires(AcquireAll(p)) == p && Releases(AcquireAll(p)) == []
    ensures Attempts(AcquireAll(p)) == StepsOf(p)
    decreases |p|
  {
    if p != [] {
      var e := AcquireAll(p);
      assert e[0] == Acquired(p[0]);
      assert e[1..] == AcquireAll(p[1..]);
      assert StepsOf(p) == [StepOf(p[0])] + StepsOf(p[1..]);
      AcquireAllLists(p[1..]);
      assert p == [p[0]] + p[1..];
    }
  }

  /** Unwinding `p` from a stack that ends in `p` releases exactly `p`, last
   *  acquired first, and restores the stack below it. */
  lemma {:induction false} UnwindPops(held: seq<Resource>, p: seq<Resource>)
    ensures Replay(held + p, Unwind(p)) == held
    ensures Lifo(held + p, Unwind(p))
    ensures Releases(Unwind(p)) == Reversed(p)
    ensures Acquires(Unwind(p)) == [] && Attempts(Unwind(p)) == []
    decreases |p|
  {
    if p != [] {
      var q := p[..|p| - 1];
      var e := Unwind(p);
      assert e[0] == Released(p[|p| - 1]);
      assert e[1..] == Unwind(q);
      assert held + p == held + q + [p[|p| - 1]];
      assert (held + p)[..|held + p| - 1] == held + q;
      UnwindPops(held, q);
      assert Reversed(p) == [p[|p| - 1]] + Reversed(q);
    } else {
      assert held + p == held;
    }
  }

  /** The prefixes of a full registration, acquired and unwound, written out. */
  lemma AcquisitionsPrefix(d: DevT, k: nat)
    requires k <= |Order|
    ensures StepsOf(Acquisitions(d)[..k]) == Order[..k]
    ensures k == 1 ==> (AcquireAll(Acquisitions(d)[..k]) == [Acquired(Region(d))] &&
                        Unwind(Acquisitions(d)[..k]) == [Released(Region(d))])
    ensures k == 2 ==> (AcquireAll(Acquisitions(d)[..k]) == [Acquired(Region(d)), Acquired(Cdev)] &&
                        Unwind(Acquisitions(d)[..k]) == [Released(Cdev), Released(Region(d))])
    ensures k == 3 ==> (AcquireAll(Acquisitions(d)[..k]) == [Acquired(Region(d)), Acquired(Cdev), Acquired(Class)] &&
                        Unwind(Acquisitions(d)[..k]) == [Released(Class), Released(Cdev), Released(Region(d))])
    ensures k == 4 ==> (AcquireAll(Acquisitions(d)[..k])
                          == [Acquired(Region(d)), Acquired(Cdev), Acquired(Class), Acquired(Device(d))] &&
                        Unwind(Acquisitions(d)[..k]) == ExitLog(d))
  {
  }

  /** Module load from any held stack: on success it pushes all four
   *  resources, on failure it leaves the stack as it found it; every release
   *  gives back the most recently acquired resource. */
  lemma InitLogEffect(held: seq<Resource>, kernel: Kernel)
    ensures Replay(held, InitLog(kernel))
         == held + (if FirstFailure(kernel.failing) == |Order|
                    then Acquisitions(AllocatedDev(kernel)) else [])
    ensures Lifo(held, InitLog(kernel))
  {
    var k := FirstFailure(kernel.failing);
    var got := Acquisitions(AllocatedDev(kernel))[..k];
    AcquireAllPushes(held, got);
    if k < |Order| {
      var fail: seq<Event> := [Failed(Order[k])];
      assert Replay(held + got, fail) == held + got;
      UnwindPops(held, got);
      ReplayAppend(held, AcquireAll(got), fail);
      ReplayAppend(held, AcquireAll(got) + fail, Unwind(got));
      LifoAppend(held, AcquireAll(got), fail);
      LifoAppend(held, AcquireAll(got) + fail, Unwind(got));
    } else {
      assert got == Acquisitions(AllocatedDev(kernel));
    }
  }

  /** Module load appended to any earlier log: the held stack gains the four
   *  resources on success and is unchanged on failure, and a log whose
   *  releases were last-in-first-out stays so. */
  lemma InitExtendsLog(log0: seq<Event>, kernel: Kernel)
    ensures Held(log0 + InitLog(kernel))
         == Held(log0) + (if FirstFailure(kernel.failing) == |Order|
                          then Acquisitions(AllocatedDev(kernel)) else [])
    ensures Lifo([], log0) ==> Lifo([], log0 + InitLog(kernel))
  {
    InitLogEffect(Held(log0), kernel);
    ReplayAppend([], log0, InitLog(kernel));
    LifoAppend([], log0, InitLog(kernel));
  }

  /** A successful load holds all four resources; a failed one holds none. */
  lemma InitHolds(kernel: Kernel)
    ensures FirstFailure(kernel.failing) == |Order| ==> Held(InitLog(kernel)) == Acquisitions(AllocatedDev(kernel))
    ensures FirstFailure(kernel.failing) < |Order| ==> Held(InitLog(kernel)) == []
    ensures Lifo([], InitLog(kernel))
  {
    InitLogEffect([], kernel);
  }

  /** Module load attempts the steps in order and none after the first that
   *  fails. On a failure at step k it acquires exactly steps 1..k-1 and
   *  releases exactly those, in reverse order; on success it releases nothing. */
  lemma InitAttemptsAndRollback(kernel: Kernel)
    ensures (var k := FirstFailure(kernel.failing);
             Attempts(InitLog(kernel)) == Order[..if k == |Order| then k else k + 1])
    ensures (var k := FirstFailure(kernel.failing);
             Acquires(InitLog(kernel)) == Acquisitions(AllocatedDev(kernel))[..k])
    ensures (var k := FirstFailure(kernel.failing);
             Releases(InitLog(kernel))
             == if k == |Order| then [] else Reversed(Acquisitions(AllocatedDev(kernel))[..k]))
  {
    var k := FirstFailure(kernel.failing);
    var got := Acquisitions(AllocatedDev(kernel))[..k];
    AcquisitionsPrefix(AllocatedDev(kernel), k);
    if k < |Order| {
      RollbackLists(got, Order[k]);
      assert Order[..k] + [Order[k]] == Order[..k + 1];
    } else {
      AcquireAllLists(got);
    }
  }

  /** A failed load that had acquired `p`: it attempts the steps of `p` and
   *  then `failed`, acquires exactly `p` and releases exactly `p` reversed. */
  lemma RollbackLists(p: seq<Resource>, failed: Step)
    ensures Attempts(AcquireAll(p) + [Failed(failed)] + Unwind(p)) == StepsOf(p) + [failed]
    ensures Acquires(AcquireAll(p) + [Failed(failed)] + Unwind(p)) == p
    ensures Releases(AcquireAll(p) + [Failed(failed)] + Unwind(p)) == Reversed(p)
  {
    var fail: seq<Event> := [Failed(failed)];
    AcquireAllLists(p);
    UnwindPops([], p);
    ListsAppend(AcquireAll(p), fail);
    ListsAppend(AcquireAll(p) + fail, Unwind(p));
    assert Attempts(fail) == [failed];
    assert Acquires(fail) == [] && Releases(fail) == [];
  }

  /** Module unload releases the four resources strictly in reverse order of
   *  acquisition: device node, class, cdev, device-number region. */
  lemma ExitUnwindsAll(d: DevT)
    ensures ExitLog(d) == Unwind(Acquisitions(d))
    ensures Releases(ExitLog(d)) == Reversed(Acquisitions(d))
    ensures Replay(Acquisitions(d), ExitLog(d)) == [] && Lifo(Acquisitions(d), ExitLog(d))
  {
    AcquisitionsPrefix(d, 4);
    assert Acquisitions(d)[..4] == Acquisitions(d);
    UnwindPops([], Acquisitions(d));
    assert [] + Acquisitions(d) == Acquisitions(d);
  }

  /** A successful load followed by unload: afterwards nothing is held, every
   *  release having popped the most recent acquisition. */
  lemma LoadThenUnload(kernel: Kernel)
    requires FirstFailure(kernel.failing) == |Order|
    ensures Held(InitLog(kernel) + ExitLog(AllocatedDev(kernel))) == []
    ensures Lifo([], InitLog(kernel) + ExitLog(AllocatedDev(kernel)))
  {
    var d := AllocatedDev(kernel);
    InitLogEffect([], kernel);
    assert Replay([], InitLog(kernel)) == Acquisitions(d);
    ExitUnwindsAll(d);
    ReplayAppend([], InitLog(kernel), ExitLog(d));
    LifoAppend([], InitLog(kernel), ExitLog(d));
  }

  /** The five outcomes of module load, written out call by call. */
  lemma InitLogCases(kernel: Kernel)
    ensures (var d, f := AllocatedDev(kernel), kernel.failing;
             (AllocRegion in f ==> InitLog(kernel) == [Failed(AllocRegion)]) &&
             (AllocRegion !in f && AddCdev in f ==>
                InitLog(kernel) == [Acquired(Region(d)), Failed(AddCdev), Released(Region(d))]) &&
             (AllocRegion !in f && AddCdev !in f && CreateClass in f ==>
                InitLog(kernel) == [Acquired(Region(d)), Acquired(Cdev), Failed(CreateClass),
                                    Released(Cdev), Released(Region(d))]) &&
             (AllocRegion !in f && AddCdev !in f && CreateClass !in f && CreateDevice in f ==>
                InitLog(kernel) == [Acquired(Region(d)), Acquired(Cdev), Acquired(Class), Failed(CreateDevice),
                                    Released(Class), Released(Cdev), Released(Region(d))]) &&
             (AllocRegion !in f && AddCdev !in f && CreateClass !in f && CreateDevice !in f ==>
                InitLog(kernel) == [Acquired(Region(d)), Acquired(Cdev), Acquired(Class), Acquired(Device(d))]))
  {
  }

  /** Class creation fails: the region and the cdev are released, cdev
   *  first, the device node is never created, and nothing remains held. */
  lemma ClassCreateFailure(major: nat)
    ensures (var d := MkDev(major, 0);
             InitLog(Kernel({CreateClass}, major))
             == [Acquired(Region(d)), Acquired(Cdev), Failed(CreateClass), Released(Cdev), Released(Region(d))])
    ensures Held(InitLog(Kernel({CreateClass}, major))) == []
  {
    AcquisitionsPrefix(MkDev(major, 0), 2);
    InitHolds(Kernel({CreateClass}, major));
  }

  /** The module's registration state: the globals `major` and the device
   *  number of module load, plus the ghost log of kernel calls. */
  class Registration {
    var major: nat
    var dev: DevT
    ghost var log: seq<Event>

    constructor ()
      ensures major == 0 && dev == MkDev(0, 0) && log == []
    {
      major := 0;
      dev := MkDev(0, 0);
      log := [];
    }

    /** Module load: allocate a device number, add the cdev, create the class,
     *  create the device node. A failing step breaks out to the block whose
     *  tail undoes the steps before it, in reverse order, and load returns -1;
     *  when all succeed it returns 0. Each `return` is a break out of `done`.
     *  `major` and `dev` are set once the allocation succeeds and keep their
     *  values after a later failure; unload rebuilds `dev` from `major`. */
    method Init(kernel: Kernel) returns (r: int)
      modifies this
      ensures log == old(log) + InitLog(kernel)
      ensures r == 0 <==> FirstFailure(kernel.failing) == |Order|
      ensures r == 0 || r == -1
      ensures Held(log) == Held(old(log)) + (if r == 0 then Acquisitions(MkDev(major, 0)) else [])
      ensures Lifo([], old(log)) ==> Lifo([], log)
      ensures FirstFailure(kernel.failing) > 0 ==> dev == AllocatedDev(kernel) && major == kernel.major
      ensures FirstFailure(kernel.failing) == 0 ==> dev == old(dev) && major == old(major)
      ensures r == 0 ==> MkDev(major, 0) == dev
    {
      ghost var log0 := log;
      InitLogCases(kernel);

      label done: {
        label failCdevAdd: {
          label failClassCreate: {
            label failDeviceCreate: {
              if AllocRegion in kernel.failing {
                log := log + [Failed(AllocRegion)];
                r := -1;
                break done;
              }
              dev := AllocatedDev(kernel);
              log := log + [Acquired(Region(dev))];
              major := Major(dev);

              if AddCdev in kernel.failing {
                log := log + [Failed(AddCdev)];
                break failCdevAdd;
              }
              log := log + [Acquired(Cdev)];

              if CreateClass in kernel.failing {
                log := log + [Failed(CreateClass)];
                break failClassCreate;
              }
              log := log + [Acquired(Class)];

              if CreateDevice in kernel.failing {
                log := log + [Failed(CreateDevice)];
                break failDeviceCreate;
              }
              log := log + [Acquired(Device(dev))];
              r := 0;
              break done;
            }
            log := log + [Released(Class)];
          }
          log := log + [Released(Cdev)];
        }
        log := log + [Released(Region(dev))];
        r := -1;
      }
      assert log == log0 + InitLog(kernel);
      InitExtendsLog(log0, kernel);
    }

    /** Module unload, which the kernel runs only after a successful load:
     *  destroy the device node, destroy the class, delete the cdev and
     *  unregister the device number rebuilt from `major` with minor 0. */
    method Exit()
      requires Held(log) == Acquisitions(MkDev(major, 0))
      modifies this`log
      ensures log == old(log) + ExitLog(MkDev(major, 0))
      ensures Held(log) == []
      ensures Lifo([], old(log)) ==> Lifo([], log)
    {
      var d := MkDev(major, 0);
      ExitUnwindsAll(d);
      ReplayAppend([], log, ExitLog(d));
      LifoAppend([], log, ExitLog(d));
      log := log + [Released(Device(d))];
      log := log + [Released(Class)];
      log := log + [Released(Cdev)];
      log := log + [Released(Region(d))];
    }
  }

  /** Load the module and, when the load succeeded, unload it again. The
   *  load's result tells whether every step succeeded; `trace` is the whole
   *  sequence of kernel calls, and in both cases the module ends holding
   *  nothing, having released in last-in-first-out order. */
  method LoadAndUnload(kernel: Kernel) returns (r: int, ghost trace: seq<Event>)
    ensures r == 0 <==> FirstFailure(kernel.failing) == |Order|
    ensures r == 0 || r == -1
    ensures trace == InitLog(kernel) + (if r == 0 then ExitLog(AllocatedDev(kernel)) else [])
    ensures Held(trace) == [] && Lifo([], trace)
  {
    var m := new Registration();
    r := m.Init(kernel);
    if r == 0 {
      m.Exit();
    }
    trace := m.log;
  }
}
