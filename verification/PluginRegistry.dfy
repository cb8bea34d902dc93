/** The plugin registry: what its runs mean, as a flat map from scheme and MIME type. */
module PluginRegistrySpec {
  import opened Common

  type Plugin = nat

  type Key = (string, string)

  datatype Registration = Registration(plugin: Plugin, priority: int)

  type Flat = map<Key, Registration>

  datatype Op = Register(mime: string, plugin: Plugin, schemes: seq<string>, priority: int) | Unregister(gone: Plugin)

  function RegisterOne(flat: Flat, key: Key, reg: Registration): Flat {
    if key !in flat || flat[key].priority < reg.priority then flat[key := reg] else flat
  }

  function RegisterAll(flat: Flat, mime: string, schemes: seq<string>, reg: Registration): Flat {
    if schemes == [] then flat
    else RegisterOne(RegisterAll(flat, mime, schemes[..|schemes| - 1], reg), (schemes[|schemes| - 1], mime), reg)
  }

  function Remove(flat: Flat, plugin: Plugin): Flat {
    map key | key in flat && flat[key].plugin != plugin :: flat[key]
  }

  function Apply(flat: Flat, op: Op): Flat {
    match op
    case Register(mime, plugin, schemes, priority) => RegisterAll(flat, mime, schemes, Registration(plugin, priority))
    case Unregister(plugin) => Remove(flat, plugin)
  }

  function Run(ops: seq<Op>): Flat {
    if ops == [] then map[] else Apply(Run(ops[..|ops| - 1]), ops[|ops| - 1])
  }

  predicate Offers(op: Op, key: Key) {
    op.Register? && key.0 in op.schemes && key.1 == op.mime
  }

  lemma {:induction false} RegisterAllAt(flat: Flat, mime: string, schemes: seq<string>, reg: Registration, key: Key)
    ensures var flat' := RegisterAll(flat, mime, schemes, reg);
      if key.0 in schemes && key.1 == mime && (key !in flat || flat[key].priority < reg.priority)
      then key in flat' && flat'[key] == reg
      else (key in flat' <==> key in flat) && (key in flat ==> flat'[key] == flat[key])
  {
    if schemes != [] {
      var n := |schemes| - 1;
      RegisterAllAt(flat, mime, schemes[..n], reg, key);
      assert schemes == schemes[..n] + [schemes[n]];
    }
  }

  /** How many operations had been run when the key was last empty. */
  function LastEmpty(ops: seq<Op>, key: Key): (n: nat)
    ensures n <= |ops| && key !in Run(ops[..n])
    ensures forall i :: n < i <= |ops| ==> key in Run(ops[..i])
  {
    assert ops[..|ops|] == ops;
    if key !in Run(ops) then |ops|
    else
      var before := ops[..|ops| - 1];
      var n := LastEmpty(before, key);
      assert forall i :: 0 <= i <= |before| ==> before[..i] == ops[..i];
      n
  }

  /** Operation w is the earliest of the highest priority among those that have offered the key
      since it was last empty, and its plugin has not been unregistered since. */
  ghost predicate Wins(ops: seq<Op>, key: Key, w: nat) {
    && LastEmpty(ops, key) <= w < |ops|
    && Offers(ops[w], key)
    && (forall i :: LastEmpty(ops, key) <= i < |ops| && Offers(ops[i], key) ==>
          ops[i].priority <= ops[w].priority && (i < w ==> ops[i].priority < ops[w].priority))
    && (forall i :: w < i < |ops| ==> ops[i] != Unregister(ops[w].plugin))
  }

  /** The lookup answers the winner. */
  ghost predicate Serves(ops: seq<Op>, key: Key, w: nat) {
    Wins(ops, key, w) && key in Run(ops) && Run(ops)[key] == Registration(ops[w].plugin, ops[w].priority)
  }

  lemma LastEmptyStep(ops: seq<Op>, op: Op, key: Key)
    ensures LastEmpty(ops + [op], key) == if key in Run(ops + [op]) then LastEmpty(ops, key) else |ops| + 1
  {
    assert (ops + [op])[..|ops|] == ops;
  }

  lemma StepKeepsWinner(ops: seq<Op>, op: Op, key: Key, w: nat)
    requires key in Run(ops) && Wins(ops, key, w) && Run(ops)[key] == Registration(ops[w].plugin, ops[w].priority)
    requires key in Run(ops + [op]) && Run(ops + [op])[key] == Run(ops)[key]
    requires Offers(op, key) ==> op.priority <= ops[w].priority
    ensures Wins(ops + [op], key, w)
  {
    LastEmptyStep(ops, op, key);
    assert (ops + [op])[..|ops|] == ops;
  }

  lemma {:induction false} FirstWinner(ops: seq<Op>, op: Op, key: Key)
    requires Offers(op, key) && key !in Run(ops) && key in Run(ops + [op])
    ensures Wins(ops + [op], key, |ops|)
  {
    LastEmptyStep(ops, op, key);
  }

  lemma {:induction false} NewWinner(ops: seq<Op>, op: Op, key: Key, w: nat)
    requires Offers(op, key) && key in Run(ops) && key in Run(ops + [op])
    requires Wins(ops, key, w) && ops[w].priority < op.priority
    ensures Wins(ops + [op], key, |ops|)
  {
    LastEmptyStep(ops, op, key);
  }

  /** Some operation has offered the key since it was last empty. */
  ghost predicate OfferedSinceEmpty(ops: seq<Op>, key: Key) {
    exists i :: LastEmpty(ops, key) <= i < |ops| && Offers(ops[i], key)
  }

  /** After any run, a key is served exactly when it has been offered since it was last empty, and
      then by the winner. */
  lemma {:induction false} LookupIsWinner(ops: seq<Op>, key: Key)
    ensures key in Run(ops) <==> OfferedSinceEmpty(ops, key)
    ensures key in Run(ops) ==> exists w: nat :: Serves(ops, key, w)
  {
    if key in Run(ops) {
      var before, op := ops[..|ops| - 1], ops[|ops| - 1];
      assert ops == before + [op];
      LookupIsWinner(before, key);
      if op.Register? {
        RegisterAllAt(Run(before), op.mime, op.schemes, Registration(op.plugin, op.priority), key);
      }
      if key in Run(before) {
        var w: nat :| Serves(before, key, w);
        if Offers(op, key) && before[w].priority < op.priority {
          NewWinner(before, op, key, w);
          assert Serves(ops, key, |before|);
        } else {
          StepKeepsWinner(before, op, key, w);
          assert Serves(ops, key, w);
        }
      } else {
        FirstWinner(before, op, key);
        assert Serves(ops, key, |before|);
      }
    }
  }

  /** A plugin is never looked up after it was unregistered and not registered again. */
  lemma NeverUnregistered(ops: seq<Op>, plugin: Plugin, n: nat, key: Key)
    requires n < |ops| && ops[n] == Unregister(plugin)
    requires forall i :: n < i < |ops| && ops[i].Register? ==> ops[i].plugin != plugin
    ensures key in Run(ops) ==> Run(ops)[key].plugin != plugin
  {
    LookupIsWinner(ops, key);
    if key in Run(ops) {
      var w: nat :| Serves(ops, key, w);
      assert w < n ==> ops[n] != Unregister(ops[w].plugin);
    }
  }

  /** Unregistering a plugin leaves a key unserved exactly if that plugin was the winner, whoever else
      has offered the key. */
  lemma UnregisterUnservesIff(ops: seq<Op>, key: Key, p: Plugin)
    ensures key in Run(ops) && key !in Run(ops + [Unregister(p)]) <==> exists w: nat :: Serves(ops, key, w) && ops[w].plugin == p
  {
    LookupIsWinner(ops, key);
    assert (ops + [Unregister(p)])[..|ops|] == ops;
  }

  /** Operation i has offered the key, and its plugin has not been unregistered since. */
  predicate Stands(ops: seq<Op>, key: Key, i: nat) {
    i < |ops| && Offers(ops[i], key) && forall j :: i < j < |ops| ==> ops[j] != Unregister(ops[i].plugin)
  }

  /** The key is unserved although an offer of it stands. */
  ghost predicate Forgotten(ops: seq<Op>, key: Key) {
    key !in Run(ops) && exists i: nat :: Stands(ops, key, i)
  }

  lemma StandsAfter(ops: seq<Op>, key: Key, p: Plugin, i: nat)
    ensures Stands(ops + [Unregister(p)], key, i) <==> Stands(ops, key, i) && ops[i].plugin != p
  {
    var all := ops + [Unregister(p)];
    if i < |ops| {
      assert all[|ops|] == Unregister(p);
      assert forall j :: i < j < |ops| ==> all[j] == ops[j];
      if Stands(all, key, i) {
        assert forall j :: i < j < |ops| ==> all[j] != Unregister(all[i].plugin);
      }
    }
  }

  /** Exactly when a standing offer of a served key is forgotten: the winner is unregistered while
      another plugin's offer stands. */
  lemma ForgottenIff(ops: seq<Op>, key: Key, p: Plugin)
    requires key in Run(ops)
    ensures Forgotten(ops + [Unregister(p)], key) <==>
      (exists w: nat :: Serves(ops, key, w) && ops[w].plugin == p) &&
      (exists i: nat :: Stands(ops, key, i) && ops[i].plugin != p)
  {
    UnregisterUnservesIff(ops, key, p);
    forall i: nat ensures Stands(ops + [Unregister(p)], key, i) <==> Stands(ops, key, i) && ops[i].plugin != p {
      StandsAfter(ops, key, p, i);
    }
  }

  /** A plugin outbid on a key does not come back when the winner is unregistered, though it is
      still registered itself. */
  lemma OutbidIsForgotten(scheme: string, mime: string)
    ensures (scheme, mime) !in
      Run([Register(mime, 1, [scheme], 5), Register(mime, 2, [scheme], 1), Unregister(1)])
  {
    var a, b, c := Register(mime, 1, [scheme], 5), Register(mime, 2, [scheme], 1), Unregister(1);
    var key := (scheme, mime);
    assert [a, b, c][..2] == [a, b] && [a, b][..1] == [a] && [a][..0] == [];
    RegisterAllAt(Run([]), mime, [scheme], Registration(1, 5), key);
    RegisterAllAt(Run([a]), mime, [scheme], Registration(2, 1), key);
    assert Run([a, b])[key] == Registration(1, 5);
  }
}

/** The registry's two-level hash table. */
module PluginRegistry {
  import opened Common
  import S = PluginRegistrySpec

  type Table = map<string, map<string, S.Registration>>

  predicate Has(table: Table, key: S.Key) {
    key.0 in table && key.1 in table[key.0]
  }

  /** The nested table and the flat map agree on a key. */
  predicate Agree(table: Table, flat: S.Flat, key: S.Key) {
    (Has(table, key) <==> key in flat) && (key in flat ==> table[key.0][key.1] == flat[key])
  }

  class Registry {
    var pluginsPerScheme: Table
    ghost var flat: S.Flat
    /** Every registration and unregistration so far. */
    ghost var ops: seq<S.Op>

    ghost predicate Agrees()
      reads this
    {
      forall key: S.Key :: Agree(pluginsPerScheme, flat, key)
    }

    ghost predicate Valid()
      reads this
    {
      Agrees() && flat == S.Run(ops)
    }

    constructor ()
      ensures Valid() && ops == []
    {
      pluginsPerScheme, flat, ops := map[], map[], [];
    }

    method GetPlugin(scheme: string, mime: string) returns (plugin: Option<S.Plugin>)
      requires Valid()
      ensures plugin == if (scheme, mime) in flat then Some(flat[(scheme, mime)].plugin) else None
      ensures plugin.Some? <==> S.OfferedSinceEmpty(ops, (scheme, mime))
      ensures plugin.Some? ==> exists w: nat :: S.Serves(ops, (scheme, mime), w) && ops[w].plugin == plugin.value
    {
      S.LookupIsWinner(ops, (scheme, mime));
      assert Agree(pluginsPerScheme, flat, (scheme, mime));
      plugin := None;
      if scheme in pluginsPerScheme {
        var hash := pluginsPerScheme[scheme];
        if mime in hash {
          plugin := Some(hash[mime].plugin);
        }
      }
    }

    method RegisterScheme(scheme: string, mime: string, reg: S.Registration)
      requires Agrees()
      modifies this`pluginsPerScheme, this`flat
      ensures Agrees() && flat == S.RegisterOne(old(flat), (scheme, mime), reg)
    {
      assert Agree(pluginsPerScheme, flat, (scheme, mime));
      if scheme !in pluginsPerScheme {
        pluginsPerScheme := pluginsPerScheme[scheme := map[mime := reg]];
      } else {
        var hash := pluginsPerScheme[scheme];
        if mime !in hash || hash[mime].priority < reg.priority {
          pluginsPerScheme := pluginsPerScheme[scheme := hash[mime := reg]];
        }
      }
      flat := S.RegisterOne(flat, (scheme, mime), reg);
      forall key: S.Key ensures Agree(pluginsPerScheme, flat, key) {
        assert Agree(old(pluginsPerScheme), old(flat), key);
      }
    }

    method RegisterPlugin(mime: string, plugin: S.Plugin, schemes: seq<string>, priority: int)
      requires Valid()
      modifies this
      ensures Valid() && flat == S.Apply(old(flat), S.Register(mime, plugin, schemes, priority))
      ensures ops == old(ops) + [S.Register(mime, plugin, schemes, priority)]
    {
      var i := 0;
      while i < |schemes|
        invariant 0 <= i <= |schemes| && Agrees() && ops == old(ops)
        invariant flat == S.RegisterAll(old(flat), mime, schemes[..i], S.Registration(plugin, priority))
      {
        assert schemes[..i + 1][..i] == schemes[..i];
        RegisterScheme(schemes[i], mime, S.Registration(plugin, priority));
        i := i + 1;
      }
      assert schemes[..i] == schemes;
      ops := ops + [S.Register(mime, plugin, schemes, priority)];
      assert ops[..|ops| - 1] == old(ops);
    }

    method UnregisterPlugin(plugin: S.Plugin)
      requires Valid()
      modifies this
      ensures Valid() && flat == S.Apply(old(flat), S.Unregister(plugin))
      ensures ops == old(ops) + [S.Unregister(plugin)]
    {
      var left := pluginsPerScheme.Keys;
      while left != {}
        invariant left <= pluginsPerScheme.Keys == old(pluginsPerScheme).Keys
        invariant forall s :: s in left ==> pluginsPerScheme[s] == old(pluginsPerScheme)[s]
        invariant forall s :: s in pluginsPerScheme && s !in left ==>
          pluginsPerScheme[s] == Purge(old(pluginsPerScheme)[s], plugin)
        invariant flat == old(flat) && ops == old(ops)
        decreases left
      {
        var scheme :| scheme in left;
        left := left - {scheme};
        var hash := Purge(pluginsPerScheme[scheme], plugin);
        pluginsPerScheme := pluginsPerScheme[scheme := hash];
      }
      flat := S.Remove(flat, plugin);
      ops := ops + [S.Unregister(plugin)];
      assert ops[..|ops| - 1] == old(ops);
      forall key: S.Key ensures Agree(pluginsPerScheme, flat, key) {
        assert Agree(old(pluginsPerScheme), old(flat), key);
      }
    }
  }

  /** One scheme's table without the entries of a plugin. */
  function Purge(hash: map<string, S.Registration>, plugin: S.Plugin): map<string, S.Registration> {
    map mime | mime in hash && hash[mime].plugin != plugin :: hash[mime]
  }
}
