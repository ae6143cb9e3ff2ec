/**
 * `Destructors`: a registry of clean-up actions that runs them all on `cleanup`, and runs
 * them once more never after `destroy`. Children created with `child` are destroyed with
 * their parent. Also the `notNull` type guard.
 */
module Utils {
  import opened Wrappers

  /**
   * A registered destructor. The source stores arbitrary functions; the model tells apart
   * the two kinds it creates itself from any other function, which is an opaque token.
   */
  datatype Destructor =
    | Callback(fn: nat)
      // the `off` closure that the `serial`-th call of `onEvent` registers for a listener it
      // attached; each call makes a new closure, so two calls register two destructors
    | Unsubscribe(emitter: nat, eventName: string, fn: nat, serial: nat)
      // the `destroy` of a child registry, registered by `child`
    | ChildDestroy(child: Destructors)

  /** `add` either succeeds or throws 'ading destructor to destroyed state'. */
  datatype Outcome = Pass | Fail(message: string)

  const ADD_AFTER_DESTROY: string := "ading destructor to destroyed state"

  /** The destructors among `ds` that are not a child's `destroy`. */
  ghost function Own(ds: set<Destructor>): set<Destructor> {
    set d | d in ds && !d.ChildDestroy?
  }

  /** What the children among `ds` run, given what each of them runs in `runs`. */
  ghost function Through(ds: set<Destructor>, runs: map<Destructor, set<Destructor>>): set<Destructor> {
    set d, e | d in ds && d in runs && e in runs[d] :: e
  }

  /** Moving `d` from the destructors still to run to those already run keeps the partition. */
  lemma MoveToDone(done: set<Destructor>, rest: set<Destructor>, d: Destructor)
    requires done !! rest && d in rest
    ensures (done + {d}) + (rest - {d}) == done + rest
    ensures (done + {d}) !! (rest - {d})
  {
  }

  /** Handling one more destructor adds it, or what its child runs. */
  lemma OwnThroughAdd(ds: set<Destructor>, d: Destructor, runs: map<Destructor, set<Destructor>>)
    requires d.ChildDestroy? <==> d in runs
    ensures Own(ds + {d}) + Through(ds + {d}, runs)
         == Own(ds) + Through(ds, runs) + (if d in runs then runs[d] else {d})
  {
    if d in runs {
      assert Own(ds + {d}) == Own(ds);
      forall e | e in runs[d] ensures e in Through(ds + {d}, runs) {
        assert d in ds + {d};
      }
    } else {
      assert Through(ds + {d}, runs) == Through(ds, runs);
    }
  }

  class Destructors {
    var destroyed: bool
    var destructors: set<Destructor>
    /** How many `off` closures `onEvent` has made on this registry. */
    var closures: nat
    /** This registry and every registry below it. */
    ghost var Repr: set<object>

    /** The children form a tree: each child owns a part of Repr of its own. */
    ghost predicate Valid()
      reads this, Repr
      decreases Repr
    {
      && this in Repr
      && (destroyed ==> destructors == {})
      && (forall d :: d in destructors && d.Unsubscribe? ==> d.serial < closures)
      && (forall d :: d in destructors && d.ChildDestroy? ==>
            && d.child in Repr
            && d.child.Repr <= Repr
            && this !in d.child.Repr
            && d.child.Valid())
      && (forall d, e :: d in destructors && e in destructors && d.ChildDestroy? && e.ChildDestroy? && d.child != e.child ==>
            d.child.Repr !! e.child.Repr)
    }

    /**
     * What a clean-up runs: the registry's own destructors other than a child's `destroy`,
     * and, through each child's `destroy`, everything that child would run.
     */
    ghost function Pending(): set<Destructor>
      requires Valid()
      reads this, Repr
      decreases Repr
    {
      Own(destructors) + (set d, e | d in destructors && d.ChildDestroy? && e in d.child.Pending() :: e)
    }

    /** Without children, a clean-up runs exactly the registered destructors. */
    lemma PendingWithoutChildren()
      requires Valid()
      requires forall d :: d in destructors ==> !d.ChildDestroy?
      ensures Pending() == destructors
    {
      assert Own(destructors) == destructors;
    }

    constructor ()
      ensures Valid() && fresh(Repr)
      ensures !destroyed && destructors == {} && closures == 0
    {
      destroyed := false;
      destructors := {};
      closures := 0;
      Repr := {this};
    }

    /**
     * `add`: registers `d` while not destroyed; throws once destroyed. An `off` closure
     * exists only once `onEvent` has made it, which `serial < closures` says.
     */
    method Add(d: Destructor) returns (r: Outcome)
      requires Valid()
      requires d.ChildDestroy? ==> d.child.Valid() && d.child.Repr !! Repr
      requires d.Unsubscribe? ==> d.serial < closures
      modifies this
      ensures Valid()
      ensures destroyed == old(destroyed) && closures == old(closures)
      ensures old(destroyed) ==> r == Fail(ADD_AFTER_DESTROY) && destructors == old(destructors) && Repr == old(Repr)
      ensures !old(destroyed) ==> r == Pass && destructors == old(destructors) + {d}
      ensures !old(destroyed) ==> Repr == old(Repr) + (if d.ChildDestroy? then d.child.Repr else {})
    {
      if destroyed {
        r := Fail(ADD_AFTER_DESTROY);
      } else {
        destructors := destructors + {d};
        if d.ChildDestroy? {
          Repr := Repr + d.child.Repr;
        }
        r := Pass;
      }
    }

    /** `child`: a fresh registry whose `destroy` is registered here. */
    method Child() returns (child: Destructors, r: Outcome)
      requires Valid()
      modifies this
      ensures Valid() && fresh(child) && child.Valid()
      ensures !child.destroyed && child.destructors == {}
      ensures destroyed == old(destroyed)
      ensures old(destroyed) ==> r.Fail? && destructors == old(destructors)
      ensures !old(destroyed) ==> r == Pass && destructors == old(destructors) + {ChildDestroy(child)}
      ensures !old(destroyed) ==> child in Repr
    {
      child := new Destructors();
      r := Add(ChildDestroy(child));
    }

    /**
     * `onEvent`: attaches `fn` to the emitter, then registers its removal. The listener is
     * attached first, so on a destroyed registry it stays attached while `add` throws.
     */
    method OnEvent(emitter: nat, eventName: string, fn: nat) returns (attached: bool, r: Outcome)
      requires Valid()
      modifies this
      ensures Valid() && attached
      ensures destroyed == old(destroyed) && Repr == old(Repr) && closures == old(closures) + 1
      ensures old(destroyed) ==> r.Fail? && destructors == old(destructors)
      ensures !old(destroyed) ==> r == Pass && destructors == old(destructors) + {Unsubscribe(emitter, eventName, fn, old(closures))}
      ensures !old(destroyed) ==> |destructors| == |old(destructors)| + 1
    {
      attached := true;
      var off := Unsubscribe(emitter, eventName, fn, closures);
      assert off !in destructors;
      closures := closures + 1;
      r := Add(off);
    }

    /**
     * `cleanup`: runs every registered destructor once and empties the registry, leaving it
     * usable. A child destructor destroys that child; the rest are reported in `invoked`,
     * together with what the children ran.
     */
    method Cleanup() returns (invoked: set<Destructor>)
      requires Valid()
      modifies Repr
      decreases Repr, 1
      ensures Valid() && Repr == old(Repr)
      ensures destructors == {} && destroyed == old(destroyed) && closures == old(closures)
      ensures invoked == old(Pending())
      ensures forall d :: d in old(destructors) && !d.ChildDestroy? ==> d in invoked
      ensures forall d :: d in old(destructors) && d.ChildDestroy? ==> d.child.destroyed && d.child.destructors == {}
      ensures forall d :: d in invoked ==> !d.ChildDestroy?
    {
      invoked := {};
      var rest := destructors;
      ghost var runs := map d | d in destructors && d.ChildDestroy? :: d.child.Pending();
      assert Pending() == Own(destructors) + Through(destructors, runs) by {
        forall e | e in Through(destructors, runs)
          ensures exists d :: d in destructors && d.ChildDestroy? && e in d.child.Pending()
        {
          var d :| d in destructors && d in runs && e in runs[d];
          assert e in d.child.Pending();
        }
        forall d, e | d in destructors && d.ChildDestroy? && e in d.child.Pending()
          ensures e in Through(destructors, runs)
        {
          assert d in runs && e in runs[d];
        }
      }
      ghost var done: set<Destructor> := {};
      while rest != {}
        invariant Valid() && rest <= destructors
        invariant done + rest == destructors && done !! rest
        invariant destructors == old(destructors) && destroyed == old(destroyed) && Repr == old(Repr)
        invariant closures == old(closures)
        invariant forall d :: d in runs <==> d in destructors && d.ChildDestroy?
        invariant forall d :: d in rest && d.ChildDestroy? ==> d.child.Pending() == runs[d]
        invariant invoked == Own(done) + Through(done, runs)
        invariant forall d :: d in done && d.ChildDestroy? ==> d.child.destroyed && d.child.destructors == {}
        invariant forall d :: d in invoked ==> !d.ChildDestroy?
        decreases rest
      {
        var d :| d in rest;
        assert d !in done;
        if d.ChildDestroy? {
          var ran := DestroyChild(d);
          forall e | e in done && e.ChildDestroy?
            ensures e.child.destroyed && e.child.destructors == {}
          {
            assert e in destructors && e != d;
          }
          invoked := invoked + ran;
        } else {
          invoked := invoked + {d};
        }
        OwnThroughAdd(done, d, runs);
        MoveToDone(done, rest, d);
        done := done + {d};
        rest := rest - {d};
      }
      forall d | d in old(destructors) && !d.ChildDestroy? ensures d in invoked {
        assert d in Own(destructors);
      }
      destructors := {};
    }

    /**
     * One step of `cleanup`: the `destroy` of the child `d` registers. It reports what that
     * child would run and leaves the other children as they were.
     */
    method DestroyChild(d: Destructor) returns (ran: set<Destructor>)
      requires Valid() && d in destructors && d.ChildDestroy?
      modifies d.child.Repr
      decreases Repr, 0
      ensures Valid() && destructors == old(destructors) && Repr == old(Repr)
      ensures ran == old(d.child.Pending()) && d.child.destroyed && d.child.destructors == {}
      ensures forall e :: e in ran ==> !e.ChildDestroy?
      ensures forall e :: e in destructors && e.ChildDestroy? && e != d ==>
        e.child.Pending() == old(e.child.Pending()) && e.child.destroyed == old(e.child.destroyed)
        && e.child.destructors == old(e.child.destructors)
    {
      ran := d.child.Destroy();
    }

    /** `destroy`: cleans up and invalidates, the first time only; later calls do nothing. */
    method Destroy() returns (invoked: set<Destructor>)
      requires Valid()
      modifies Repr
      decreases Repr, 2
      ensures Valid() && Repr == old(Repr)
      ensures destroyed && destructors == {}
      ensures old(destroyed) ==> invoked == {} && unchanged(Repr)
      ensures invoked == old(Pending()) && closures == old(closures)
      ensures forall d :: d in old(destructors) && !d.ChildDestroy? ==> d in invoked
      ensures forall d :: d in old(destructors) && d.ChildDestroy? ==> d.child.destroyed
      ensures forall d :: d in invoked ==> !d.ChildDestroy?
    {
      invoked := {};
      if !destroyed {
        invoked := Cleanup();
        destroyed := true;
      }
    }
  }

  /** A second `destroy` runs nothing and changes nothing. */
  method DestroyTwice(d: Destructors) returns (first: set<Destructor>, second: set<Destructor>)
    requires d.Valid()
    modifies d.Repr
    ensures d.Valid() && d.destroyed
    ensures second == {}
    ensures forall x :: x in old(d.destructors) && !x.ChildDestroy? ==> x in first
  {
    first := d.Destroy();
    second := d.Destroy();
  }

  /** `cleanup` keeps the registry usable: `add` succeeds right after it. */
  method AddAfterCleanup(d: Destructors, fn: nat) returns (r: Outcome)
    requires d.Valid() && !d.destroyed
    modifies d.Repr
    ensures r == Pass && d.destructors == {Callback(fn)} && !d.destroyed
  {
    var _ := d.Cleanup();
    r := d.Add(Callback(fn));
  }

  /**
   * The same function added twice is registered once, so `cleanup` runs it once; once
   * destroyed, both calls throw and nothing is registered.
   */
  method AddTwiceRegistersOnce(d: Destructors, fn: nat) returns (r1: Outcome, r2: Outcome)
    requires d.Valid()
    modifies d
    ensures !old(d.destroyed) ==> r1 == Pass && r2 == Pass && d.destructors == old(d.destructors) + {Callback(fn)}
    ensures old(d.destroyed) ==>
      r1 == Fail(ADD_AFTER_DESTROY) && r2 == Fail(ADD_AFTER_DESTROY) && d.destructors == old(d.destructors)
  {
    r1 := d.Add(Callback(fn));
    r2 := d.Add(Callback(fn));
  }

  /**
   * Each `onEvent` call registers a closure of its own, so attaching the same listener
   * twice registers two removals, and `cleanup` calls `off` twice.
   */
  method OnEventTwiceRegistersTwo(d: Destructors, emitter: nat, eventName: string, fn: nat) returns (r1: Outcome, r2: Outcome)
    requires d.Valid()
    modifies d
    ensures d.Valid() && d.closures == old(d.closures) + 2
    ensures !old(d.destroyed) ==> r1 == Pass && r2 == Pass && |d.destructors| == |old(d.destructors)| + 2
    ensures !old(d.destroyed) ==>
      d.destructors == old(d.destructors)
        + {Unsubscribe(emitter, eventName, fn, old(d.closures)), Unsubscribe(emitter, eventName, fn, old(d.closures) + 1)}
    ensures old(d.destroyed) ==> r1.Fail? && r2.Fail? && d.destructors == old(d.destructors)
  {
    var _, a := d.OnEvent(emitter, eventName, fn);
    var _, b := d.OnEvent(emitter, eventName, fn);
    r1, r2 := a, b;
  }

  /** `notNull`: the type guard `e !== null`, with `null` as `None`. */
  function NotNull<T>(e: Option<T>): (r: bool)
    ensures r <==> e.Some?
  {
    e != None
  }
}
