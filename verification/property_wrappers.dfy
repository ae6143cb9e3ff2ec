/**
 * Change-detecting observable values: `propertyStub` (a value with change callbacks),
 * `abstractOnChange` (a listener on several properties that fires only when a derived value
 * really changes) and `aggregate` (a property built from such listeners).
 */
module PropertyWrappers {

  /**
   * A registered callback. Each `abstractOnChange` creates one closure per underlying
   * property; `owner` names the `abstractOnChange` call and `index` the property.
   */
  datatype Callback = Callback(owner: nat, index: nat)

  /** `Array.prototype.indexOf`: the first position of `x`, or -1. */
  function IndexOf<T(==)>(s: seq<T>, x: T): (i: int)
    ensures -1 <= i < |s|
    ensures i == -1 <==> x !in s
    ensures i >= 0 ==> s[i] == x && x !in s[..i]
  {
    if s == [] then -1
    else if s[0] == x then 0
    else
      var j := IndexOf(s[1..], x);
      assert j >= 0 ==> s[1..][..j] == s[1..j + 1];
      if j == -1 then -1 else j + 1
  }

  /** `s` without position `i`. */
  function RemoveAt<T>(s: seq<T>, i: nat): (r: seq<T>)
    requires i < |s|
    ensures |r| == |s| - 1
    ensures multiset(r) == multiset(s) - multiset{s[i]}
  {
    assert s == s[..i] + [s[i]] + s[i + 1..];
    s[..i] + s[i + 1..]
  }

  /**
   * `s.splice(start, 1)`: a negative start counts from the end (and is raised to 0 when it
   * reaches before the start); a start past the end removes nothing.
   */
  function SpliceOne<T>(s: seq<T>, start: int): (r: seq<T>)
    ensures 0 <= start < |s| ==> |r| == |s| - 1 && multiset(r) == multiset(s) - multiset{s[start]}
    ensures -|s| <= start < 0 ==> |r| == |s| - 1 && multiset(r) == multiset(s) - multiset{s[|s| + start]}
    ensures start < -|s| && s != [] ==> r == s[1..]
    ensures start >= |s| ==> r == s
  {
    var k := if start < 0 then (if |s| + start < 0 then 0 else |s| + start) else start;
    if k < |s| then RemoveAt(s, k) else s
  }

  /**
   * The unsubscribe function as written: `callbacks.splice(callbacks.indexOf(cb), 1)`. Every
   * call removes one callback, whichever, as long as any is left.
   */
  function UnsubscribeAsWritten(callbacks: seq<Callback>, cb: Callback): (r: seq<Callback>)
    ensures |r| == if callbacks == [] then 0 else |callbacks| - 1
  {
    SpliceOne(callbacks, IndexOf(callbacks, cb))
  }

  /** A registered callback is removed as intended: its first occurrence, and nothing else. */
  lemma UnsubscribeAsWrittenWhenPresent(callbacks: seq<Callback>, cb: Callback)
    requires cb in callbacks
    ensures multiset(UnsubscribeAsWritten(callbacks, cb)) == multiset(callbacks) - multiset{cb}
  {
  }

  /**
   * Once its callback is gone, the same unsubscribe function removes the LAST callback,
   * which belongs to somebody else.
   */
  lemma {:induction false} UnsubscribeAsWrittenWhenAbsent(callbacks: seq<Callback>, cb: Callback)
    requires cb !in callbacks && callbacks != []
    ensures UnsubscribeAsWritten(callbacks, cb) == callbacks[..|callbacks| - 1]
  {
    assert IndexOf(callbacks, cb) == -1;
  }

  /** Two subscribers; the first one's unsubscribe, called twice, also unsubscribes the second. */
  lemma UnsubscribeTwiceDropsAnother()
    ensures UnsubscribeAsWritten(UnsubscribeAsWritten([Callback(1, 0), Callback(2, 0)], Callback(1, 0)), Callback(1, 0)) == []
  {
    var once := UnsubscribeAsWritten([Callback(1, 0), Callback(2, 0)], Callback(1, 0));
    assert once == [Callback(2, 0)];
    UnsubscribeAsWrittenWhenAbsent(once, Callback(1, 0));
  }

  /** The unsubscribe the model uses: splices only when the callback is still registered. */
  function Unsubscribed(callbacks: seq<Callback>, cb: Callback): (r: seq<Callback>)
    ensures multiset(r) == multiset(callbacks) - multiset{cb}
    ensures cb !in callbacks ==> r == callbacks
  {
    var i := IndexOf(callbacks, cb);
    if i >= 0 then RemoveAt(callbacks, i) else callbacks
  }

  /** Calling it again is harmless once it has removed a callback registered once. */
  lemma UnsubscribedTwiceIsOnce(callbacks: seq<Callback>, cb: Callback)
    requires multiset(callbacks)[cb] <= 1
    ensures Unsubscribed(Unsubscribed(callbacks, cb), cb) == Unsubscribed(callbacks, cb)
  {
    var once := Unsubscribed(callbacks, cb);
    assert multiset(once)[cb] == 0;
    assert cb !in once;
  }

  /** Both agree whenever the callback is still registered. */
  lemma UnsubscribedAgreesWhenPresent(callbacks: seq<Callback>, cb: Callback)
    requires cb in callbacks
    ensures Unsubscribed(callbacks, cb) == UnsubscribeAsWritten(callbacks, cb)
  {
  }

  /** `propertyStub(initialValue)`: a value and its change callbacks. */
  class PropertyStub<T(==)> {
    var value: T
    var callbacks: seq<Callback>

    constructor (initialValue: T)
      ensures value == initialValue && callbacks == []
    {
      value := initialValue;
      callbacks := [];
    }

    function GetValue(): (v: T)
      reads this
      ensures v == value
    {
      value
    }

    /**
     * `setValue`: stores a value that differs from the current one and calls every callback
     * once, in registration order; an equal value changes nothing and calls nothing.
     */
    method SetValue(newValue: T) returns (called: seq<Callback>)
      modifies this`value
      ensures value == newValue
      ensures newValue == old(value) ==> called == []
      ensures newValue != old(value) ==> called == callbacks
    {
      called := [];
      if value != newValue {
        value := newValue;
        var i := 0;
        while i < |callbacks|
          invariant 0 <= i <= |callbacks|
          invariant called == callbacks[..i]
        {
          called := called + [callbacks[i]];
          i := i + 1;
        }
      }
    }

    /** `onChange`: appends the callback; `Unsubscribe` is the function it returns. */
    method OnChange(cb: Callback)
      modifies this`callbacks
      ensures callbacks == old(callbacks) + [cb]
    {
      callbacks := callbacks + [cb];
    }

    /**
     * The unsubscribe function `onChange` returns, as written: while the callback is
     * registered it removes one registration of it and nothing else; once it is gone it
     * removes the last callback instead.
     */
    method Unsubscribe(cb: Callback)
      modifies this`callbacks
      ensures callbacks == UnsubscribeAsWritten(old(callbacks), cb)
      ensures cb in old(callbacks) ==> multiset(callbacks) == multiset(old(callbacks)) - multiset{cb}
      ensures cb !in old(callbacks) && old(callbacks) != [] ==> callbacks == old(callbacks)[..|old(callbacks)| - 1]
    {
      ghost var before := callbacks;
      callbacks := SpliceOne(callbacks, IndexOf(callbacks, cb));
      if cb in before {
        UnsubscribeAsWrittenWhenPresent(before, cb);
      } else if before != [] {
        UnsubscribeAsWrittenWhenAbsent(before, cb);
      }
    }

    /** The unsubscribe function as evidently intended: it removes the callback only while it is registered. */
    method UnsubscribeGuarded(cb: Callback)
      modifies this`callbacks
      ensures callbacks == Unsubscribed(old(callbacks), cb)
      ensures forall c :: c != cb ==> multiset(callbacks)[c] == multiset(old(callbacks))[c]
      ensures multiset(old(callbacks))[cb] <= 1 ==> cb !in callbacks
    {
      var i := IndexOf(callbacks, cb);
      if i >= 0 {
        callbacks := callbacks[..i] + callbacks[i + 1..];
      }
    }
  }

  /** The number of times `cb` is registered on `p`. */
  ghost function Count<T>(p: PropertyStub<T>, cb: Callback): nat
    reads p
  {
    multiset(p.callbacks)[cb]
  }

  /**
   * `abstractOnChange(underlyingProps, getValue, cb)`: one listener per underlying property,
   * which calls `cb` when `getValue()` differs from the value last seen; `Destroy` is the
   * returned destructor.
   */
  class AbstractOnChange<U(==), V(==)> {
    const props: seq<PropertyStub<U>>
    const owner: nat
    var lastValue: V
    var destroyed: bool

    /** Each property still carries its own listener exactly once until destroyed. */
    ghost predicate Valid()
      reads this, props
    {
      forall i :: 0 <= i < |props| ==> Count(props[i], Callback(owner, i)) == (if destroyed then 0 else 1)
    }

    constructor (props: seq<PropertyStub<U>>, owner: nat, currentValue: V)
      requires forall p, c :: p in props && c in p.callbacks ==> c.owner != owner
      modifies props
      ensures Valid() && !destroyed
      ensures this.props == props && this.owner == owner && lastValue == currentValue
      ensures forall p, c: Callback :: p in props && c.owner != owner ==> multiset(p.callbacks)[c] == old(multiset(p.callbacks)[c])
    {
      this.props := props;
      this.owner := owner;
      lastValue := currentValue;
      destroyed := false;
      new;
      var i := 0;
      while i < |props|
        invariant 0 <= i <= |props|
        invariant !destroyed && lastValue == currentValue
        invariant forall j :: 0 <= j < |props| ==> Count(props[j], Callback(owner, j)) == (if j < i then 1 else 0)
        invariant forall p, c: Callback :: p in props && c.owner != owner ==> multiset(p.callbacks)[c] == old(multiset(p.callbacks)[c])
      {
        props[i].OnChange(Callback(owner, i));
        i := i + 1;
      }
    }

    /** The listener: calls `cb` only when the derived value changed, and remembers it. */
    method Notify(newValue: V) returns (called: bool)
      modifies this`lastValue
      ensures lastValue == newValue
      ensures called <==> newValue != old(lastValue)
    {
      called := false;
      if newValue != lastValue {
        lastValue := newValue;
        called := true;
      }
    }

    /** Unregisters this listener from every underlying property. */
    method UnsubscribeAll()
      requires Valid() && !destroyed
      modifies props
      ensures forall i :: 0 <= i < |props| ==> Count(props[i], Callback(owner, i)) == 0
      ensures forall p, c: Callback :: p in props && c.owner != owner ==> multiset(p.callbacks)[c] == old(multiset(p.callbacks)[c])
    {
      var i := 0;
      while i < |props|
        invariant 0 <= i <= |props|
        invariant forall j :: 0 <= j < |props| ==> Count(props[j], Callback(owner, j)) == (if j < i then 0 else 1)
        invariant forall p, c: Callback :: p in props && c.owner != owner ==> multiset(p.callbacks)[c] == old(multiset(p.callbacks)[c])
      {
        label Before:
        props[i].Unsubscribe(Callback(owner, i));
        forall j | 0 <= j < |props|
          ensures Count(props[j], Callback(owner, j)) == (if j <= i then 0 else 1)
        {
          if props[j] != props[i] {
            assert props[j].callbacks == old@Before(props[j].callbacks);
          } else if j != i {
            assert Count(props[j], Callback(owner, j)) == old@Before(Count(props[j], Callback(owner, j)));
          }
        }
        i := i + 1;
      }
    }

    /** The destructor: unregisters from every underlying property, once. */
    method Destroy()
      requires Valid()
      modifies this`destroyed, props
      ensures Valid() && destroyed
      ensures forall i :: 0 <= i < |props| ==> Callback(owner, i) !in props[i].callbacks
      ensures forall p, c: Callback :: p in props && c.owner != owner ==> multiset(p.callbacks)[c] == old(multiset(p.callbacks)[c])
      ensures old(destroyed) ==> forall p :: p in props ==> p.callbacks == old(p.callbacks)
    {
      if !destroyed {
        UnsubscribeAll();
        destroyed := true;
      }
    }
  }

  /** `aggregate(underlyingProps, getValue)`: a read-only property made of the given ones. */
  class Aggregate<U(==), V(==)> {
    const props: seq<PropertyStub<U>>

    constructor (props: seq<PropertyStub<U>>)
      ensures this.props == props
    {
      this.props := props;
    }

    /** `onChange`: an `abstractOnChange` over the aggregated properties. */
    method OnChange(owner: nat, currentValue: V) returns (listener: AbstractOnChange<U, V>)
      requires forall p, c :: p in props && c in p.callbacks ==> c.owner != owner
      modifies props
      ensures fresh(listener) && listener.Valid() && !listener.destroyed
      ensures listener.props == props && listener.lastValue == currentValue
    {
      listener := new AbstractOnChange(props, owner, currentValue);
    }
  }
}
