/**
 * The persistent registry of a discrete-time model: a table from signal name
 * to signal and a table from parameter name to number.  `WithSignal` and
 * `WithParam` return an updated copy; the receiver is a value and never
 * changes.  A lookup of a name that was never added yields `None`.
 */
module DiscreteModel {
  import opened Wrappers

  /** A model over signals of type `S`; parameters are numbers. */
  datatype Model<S> = Model(signals: map<string, S>, params: map<string, real>) {

    /** The signal registered under `name`, if any (no default). */
    function GetSignal(name: string): Option<S>
    {
      if name in signals then Some(signals[name]) else None
    }

    /** The parameter registered under `name`, if any (no default). */
    function GetParam(name: string): Option<real>
    {
      if name in params then Some(params[name]) else None
    }

    /** A copy of this model in which `name` is bound to `signal`. */
    function WithSignal(name: string, signal: S): (m: Model<S>)
      ensures m.GetSignal(name) == Some(signal)
      ensures forall other :: other != name ==> m.GetSignal(other) == GetSignal(other)
      ensures forall p :: m.GetParam(p) == GetParam(p)
    {
      Model(signals[name := signal], params)
    }

    /** A copy of this model in which parameter `name` has value `value`. */
    function WithParam(name: string, value: real): (m: Model<S>)
      ensures m.GetParam(name) == Some(value)
      ensures forall other :: other != name ==> m.GetParam(other) == GetParam(other)
      ensures forall n :: m.GetSignal(n) == GetSignal(n)
    {
      Model(signals, params[name := value])
    }
  }

  /** The model a caller starts from: no signals, no parameters. */
  function Empty<S>(): (m: Model<S>)
    ensures forall n :: m.GetSignal(n) == None
    ensures forall n :: m.GetParam(n) == None
  {
    Model(map[], map[])
  }

  /** Two models that answer every lookup alike are the same model. */
  lemma Extensionality<S>(m1: Model<S>, m2: Model<S>)
    requires forall n :: m1.GetSignal(n) == m2.GetSignal(n)
    requires forall n :: m1.GetParam(n) == m2.GetParam(n)
    ensures m1 == m2
  {
    assert m1.signals.Keys == m2.signals.Keys by {
      forall n ensures n in m1.signals <==> n in m2.signals {
        assert m1.GetSignal(n) == m2.GetSignal(n);
      }
    }
    forall n | n in m1.signals ensures m1.signals[n] == m2.signals[n] {
      assert m1.GetSignal(n) == m2.GetSignal(n);
    }
    assert m1.params.Keys == m2.params.Keys by {
      forall n ensures n in m1.params <==> n in m2.params {
        assert m1.GetParam(n) == m2.GetParam(n);
      }
    }
    forall n | n in m1.params ensures m1.params[n] == m2.params[n] {
      assert m1.GetParam(n) == m2.GetParam(n);
    }
  }

  /** A later `WithParam` on the same name overwrites the earlier value. */
  lemma WithParamOverwrites<S>(m: Model<S>, name: string, v1: real, v2: real)
    ensures m.WithParam(name, v1).WithParam(name, v2) == m.WithParam(name, v2)
  {
    Extensionality(m.WithParam(name, v1).WithParam(name, v2), m.WithParam(name, v2));
  }

  /** A later `WithSignal` on the same name replaces the earlier signal. */
  lemma WithSignalOverwrites<S>(m: Model<S>, name: string, s1: S, s2: S)
    ensures m.WithSignal(name, s1).WithSignal(name, s2) == m.WithSignal(name, s2)
  {
    Extensionality(m.WithSignal(name, s1).WithSignal(name, s2), m.WithSignal(name, s2));
  }

  /** Parameters with distinct names may be added in either order. */
  lemma WithParamCommutes<S>(m: Model<S>, n1: string, v1: real, n2: string, v2: real)
    requires n1 != n2
    ensures m.WithParam(n1, v1).WithParam(n2, v2) == m.WithParam(n2, v2).WithParam(n1, v1)
  {
    Extensionality(m.WithParam(n1, v1).WithParam(n2, v2), m.WithParam(n2, v2).WithParam(n1, v1));
  }

  /** Signals with distinct names may be added in either order. */
  lemma WithSignalCommutes<S>(m: Model<S>, n1: string, s1: S, n2: string, s2: S)
    requires n1 != n2
    ensures m.WithSignal(n1, s1).WithSignal(n2, s2) == m.WithSignal(n2, s2).WithSignal(n1, s1)
  {
    Extensionality(m.WithSignal(n1, s1).WithSignal(n2, s2), m.WithSignal(n2, s2).WithSignal(n1, s1));
  }

  /** A signal and a parameter may be added in either order, whatever their names. */
  lemma SignalAndParamCommute<S>(m: Model<S>, n: string, s: S, p: string, v: real)
    ensures m.WithSignal(n, s).WithParam(p, v) == m.WithParam(p, v).WithSignal(n, s)
  {
    Extensionality(m.WithSignal(n, s).WithParam(p, v), m.WithParam(p, v).WithSignal(n, s));
  }

  /** One call of `WithSignal` or `WithParam`, as a value. */
  datatype Update<S> = SetSignal(name: string, signal: S) | SetParam(name: string, value: real)

  function Apply<S>(m: Model<S>, u: Update<S>): Model<S>
  {
    match u
    case SetSignal(n, s) => m.WithSignal(n, s)
    case SetParam(n, v) => m.WithParam(n, v)
  }

  /** The model reached from `m` by a chain of calls, first update first. */
  function Build<S>(m: Model<S>, updates: seq<Update<S>>): Model<S>
    decreases |updates|
  {
    if updates == [] then m else Build(Apply(m, updates[0]), updates[1..])
  }

  /** The signal most recently given to `name` in `updates`, if any. */
  function LastSignal<S>(updates: seq<Update<S>>, name: string): Option<S>
  {
    if updates == [] then None
    else
      var u := updates[|updates| - 1];
      if u.SetSignal? && u.name == name then Some(u.signal)
      else LastSignal(updates[..|updates| - 1], name)
  }

  /** The value most recently given to parameter `name` in `updates`, if any. */
  function LastParam<S>(updates: seq<Update<S>>, name: string): Option<real>
  {
    if updates == [] then None
    else
      var u := updates[|updates| - 1];
      if u.SetParam? && u.name == name then Some(u.value)
      else LastParam(updates[..|updates| - 1], name)
  }

  /** Extending a chain by one call applies that call to the chain's result. */
  lemma {:induction false} BuildSnoc<S>(m: Model<S>, updates: seq<Update<S>>, u: Update<S>)
    ensures Build(m, updates + [u]) == Apply(Build(m, updates), u)
    decreases |updates|
  {
    if updates == [] {
      assert Build(Apply(m, u), []) == Apply(m, u);
    } else {
      assert (updates + [u])[1..] == updates[1..] + [u];
      BuildSnoc(Apply(m, updates[0]), updates[1..], u);
    }
  }

  /**
   * After any chain of calls, a signal lookup yields the signal most recently
   * given to that name, and falls back to the starting model otherwise.
   */
  lemma {:induction false} BuildGetSignal<S>(m: Model<S>, updates: seq<Update<S>>, name: string)
    ensures Build(m, updates).GetSignal(name)
         == if LastSignal(updates, name).Some? then LastSignal(updates, name) else m.GetSignal(name)
    decreases |updates|
  {
    if updates != [] {
      var init, u := updates[..|updates| - 1], updates[|updates| - 1];
      assert updates == init + [u];
      BuildSnoc(m, init, u);
      BuildGetSignal(m, init, name);
    }
  }

  /**
   * After any chain of calls, a parameter lookup yields the value most
   * recently given to that name, and falls back to the starting model otherwise.
   */
  lemma {:induction false} BuildGetParam<S>(m: Model<S>, updates: seq<Update<S>>, name: string)
    ensures Build(m, updates).GetParam(name)
         == if LastParam(updates, name).Some? then LastParam(updates, name) else m.GetParam(name)
    decreases |updates|
  {
    if updates != [] {
      var init, u := updates[..|updates| - 1], updates[|updates| - 1];
      assert updates == init + [u];
      BuildSnoc(m, init, u);
      BuildGetParam(m, init, name);
    }
  }

  /** A name is found in a model built from scratch exactly when some call added it. */
  lemma {:induction false} LookupDefinedOnlyIfAdded<S>(updates: seq<Update<S>>, name: string)
    ensures Build(Empty<S>(), updates).GetSignal(name).Some?
        <==> exists i :: 0 <= i < |updates| && updates[i].SetSignal? && updates[i].name == name
    ensures Build(Empty<S>(), updates).GetParam(name).Some?
        <==> exists i :: 0 <= i < |updates| && updates[i].SetParam? && updates[i].name == name
    decreases |updates|
  {
    BuildGetSignal(Empty<S>(), updates, name);
    BuildGetParam(Empty<S>(), updates, name);
    if updates != [] {
      var init := updates[..|updates| - 1];
      LookupDefinedOnlyIfAdded(init, name);
      BuildGetSignal(Empty<S>(), init, name);
      BuildGetParam(Empty<S>(), init, name);
      forall i | 0 <= i < |init| ensures init[i] == updates[i] { }
    }
  }

  /**
   * Two chains that give every name the same final signal and the same final
   * parameter value build the same model, whatever order the calls came in.
   */
  lemma OrderIndependent<S>(m: Model<S>, u1: seq<Update<S>>, u2: seq<Update<S>>)
    requires forall n :: LastSignal(u1, n) == LastSignal(u2, n)
    requires forall n :: LastParam(u1, n) == LastParam(u2, n)
    ensures Build(m, u1) == Build(m, u2)
  {
    forall n ensures Build(m, u1).GetSignal(n) == Build(m, u2).GetSignal(n)
    {
      BuildGetSignal(m, u1, n);
      BuildGetSignal(m, u2, n);
    }
    forall n ensures Build(m, u1).GetParam(n) == Build(m, u2).GetParam(n)
    {
      BuildGetParam(m, u1, n);
      BuildGetParam(m, u2, n);
    }
    Extensionality(Build(m, u1), Build(m, u2));
  }

  /**
   * One signal shared by a model and a model derived from it by new parameter
   * values: the original keeps its parameters, the derived one has its own,
   * and both hold the very same signal.
   */
  lemma DeriveAfterUse<S>(sig: S)
    ensures var m1 := Empty<S>().WithParam("p1", 2.0).WithParam("p2", 3.0).WithSignal("sig", sig);
            var m2 := m1.WithParam("p1", 5.0).WithParam("p2", 7.0);
            && m1.GetParam("p1") == Some(2.0) && m1.GetParam("p2") == Some(3.0)
            && m2.GetParam("p1") == Some(5.0) && m2.GetParam("p2") == Some(7.0)
            && m1.GetSignal("sig") == m2.GetSignal("sig") == Some(sig)
  {
  }

  /** Adding the parameters before or after the signal yields the same model. */
  lemma ParamsThenSignal<S>(sig: S)
    ensures Empty<S>().WithParam("p1", 2.0).WithParam("p2", 3.0).WithSignal("sig", sig)
         == Empty<S>().WithSignal("sig", sig).WithParam("p1", 2.0).WithParam("p2", 3.0)
  {
    var m := Empty<S>();
    SignalAndParamCommute(m.WithParam("p1", 2.0), "sig", sig, "p2", 3.0);
    SignalAndParamCommute(m, "sig", sig, "p1", 2.0);
  }
}
