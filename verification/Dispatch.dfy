/** Sorting the items of a request into failures, cached ones and groups, for any kinds of names and keys. */
module Grouping {
  import opened Common

  datatype Item<U, K> = Bad(name: U, message: string) | Cached(name: U) | Work(name: U, key: K)

  function Bads<U, K>(items: seq<Item<U, K>>): seq<U> {
    if items == [] then []
    else
      var x := items[|items| - 1];
      Bads(items[..|items| - 1]) + (if x.Bad? then [x.name] else [])
  }

  function CachedOf<U, K>(items: seq<Item<U, K>>): seq<U> {
    if items == [] then []
    else
      var x := items[|items| - 1];
      CachedOf(items[..|items| - 1]) + (if x.Cached? then [x.name] else [])
  }

  /** The names a handler of this key must serve, in request order. */
  function Wanted<U, K(==)>(items: seq<Item<U, K>>, key: K): seq<U> {
    if items == [] then []
    else
      var x := items[|items| - 1];
      Wanted(items[..|items| - 1], key) + (if x.Work? && x.key == key then [x.name] else [])
  }

  function Occurs<U(==)>(s: seq<U>, u: U): nat {
    if s == [] then 0 else Occurs(s[..|s| - 1], u) + (if s[|s| - 1] == u then 1 else 0)
  }

  /** How often the items ask for `u`. */
  function Asked<U(==), K>(items: seq<Item<U, K>>, u: U): nat {
    if items == [] then 0 else Asked(items[..|items| - 1], u) + (if items[|items| - 1].name == u then 1 else 0)
  }

  /** How often the groups of the listed keys hold `u`. */
  function InGroups<U(==), K(==)>(items: seq<Item<U, K>>, keys: seq<K>, u: U): nat {
    if keys == [] then 0
    else InGroups(items, keys[..|keys| - 1], u) + Occurs(Wanted(items, keys[|keys| - 1]), u)
  }

  /** Elements of `a` that do not occur in `b`. */
  function Subtract<U(==)>(a: seq<U>, b: seq<U>): seq<U> {
    if a == [] then [] else Subtract(a[..|a| - 1], b) + (if a[|a| - 1] in b then [] else [a[|a| - 1]])
  }

  function Shared<U(==)>(a: seq<U>, b: seq<U>): seq<U> {
    if a == [] then [] else Shared(a[..|a| - 1], b) + (if a[|a| - 1] in b then [a[|a| - 1]] else [])
  }

  lemma OccursAppend<U>(s: seq<U>, x: U, u: U)
    ensures Occurs(s + [x], u) == Occurs(s, u) + (if x == u then 1 else 0)
  {
    assert (s + [x])[..|s|] == s;
  }

  lemma {:induction false} OccursConcat<U>(a: seq<U>, b: seq<U>, u: U)
    ensures Occurs(a + b, u) == Occurs(a, u) + Occurs(b, u)
  {
    if b == [] {
      assert a + b == a;
    } else {
      var n := |b| - 1;
      OccursConcat(a, b[..n], u);
      assert (a + b)[..|a + b| - 1] == a + b[..n];
    }
  }

  lemma {:induction false} OccursReverse<U>(s: seq<U>, u: U)
    ensures Occurs(Reverse(s), u) == Occurs(s, u)
  {
    if s != [] {
      OccursReverse(s[1..], u);
      OccursConcat([s[0]], s[1..], u);
      assert s == [s[0]] + s[1..];
      OccursAppend(Reverse(s[1..]), s[0], u);
    }
  }

  lemma {:induction false} OccursIfIn<U>(s: seq<U>, u: U)
    ensures u in s <==> Occurs(s, u) > 0
  {
    if s != [] {
      var n := |s| - 1;
      OccursIfIn(s[..n], u);
      assert s == s[..n] + [s[n]];
    }
  }

  lemma {:induction false} OccursOnce<U>(s: seq<U>, u: U)
    requires Distinct(s)
    ensures Occurs(s, u) <= 1
  {
    if s != [] {
      var n := |s| - 1;
      OccursOnce(s[..n], u);
      OccursIfIn(s[..n], u);
    }
  }

  lemma {:induction false} OccursSplit<U>(a: seq<U>, b: seq<U>, u: U)
    ensures Occurs(a, u) == Occurs(Subtract(a, b), u) + Occurs(Shared(a, b), u)
    ensures Occurs(Shared(a, b), u) == if u in b then Occurs(a, u) else 0
  {
    if a != [] {
      var n := |a| - 1;
      OccursSplit(a[..n], b, u);
      OccursAppend(Subtract(a[..n], b), a[n], u);
      OccursAppend(Shared(a[..n], b), a[n], u);
      assert Subtract(a, b) == if a[n] in b then Subtract(a[..n], b) else Subtract(a[..n], b) + [a[n]];
      assert Shared(a, b) == if a[n] in b then Shared(a[..n], b) + [a[n]] else Shared(a[..n], b);
    }
  }

  lemma WantedStep<U, K>(items: seq<Item<U, K>>, x: Item<U, K>, key: K)
    ensures Wanted(items + [x], key) == if x.Work? && x.key == key then Wanted(items, key) + [x.name] else Wanted(items, key)
  {
    assert (items + [x])[..|items|] == items;
  }

  lemma BadsStep<U, K>(items: seq<Item<U, K>>, x: Item<U, K>)
    ensures Bads(items + [x]) == if x.Bad? then Bads(items) + [x.name] else Bads(items)
    ensures CachedOf(items + [x]) == if x.Cached? then CachedOf(items) + [x.name] else CachedOf(items)
  {
    assert (items + [x])[..|items|] == items;
  }

  lemma AskedStep<U, K>(items: seq<Item<U, K>>, x: Item<U, K>, u: U)
    ensures Asked(items + [x], u) == Asked(items, u) + (if x.name == u then 1 else 0)
  {
    assert (items + [x])[..|items|] == items;
  }

  lemma {:induction false} InGroupsStep<U, K>(items: seq<Item<U, K>>, x: Item<U, K>, keys: seq<K>, u: U)
    requires Distinct(keys)
    ensures InGroups(items + [x], keys, u) == InGroups(items, keys, u) + (if x.Work? && x.key in keys && x.name == u then 1 else 0)
  {
    if keys != [] {
      var m := |keys| - 1;
      InGroupsStep(items, x, keys[..m], u);
      assert keys == keys[..m] + [keys[m]];
      WantedStep(items, x, keys[m]);
      if x.Work? {
        OccursAppend(Wanted(items, keys[m]), x.name, u);
      }
    }
  }

  lemma {:induction false} InNoGroup<U, K>(keys: seq<K>, u: U)
    ensures InGroups<U, K>([], keys, u) == 0
  {
    if keys != [] {
      InNoGroup(keys[..|keys| - 1], u);
    }
  }

  /** Every key that an item needs is listed. */
  ghost predicate Listed<U, K>(items: seq<Item<U, K>>, keys: seq<K>) {
    forall x :: x in items && x.Work? ==> x.key in keys
  }

  /** Failures, cached items and groups together are all the items. */
  lemma {:induction false} PartsAreAsked<U, K>(items: seq<Item<U, K>>, keys: seq<K>, u: U)
    requires Distinct(keys) && Listed(items, keys)
    ensures Occurs(Bads(items), u) + Occurs(CachedOf(items), u) + InGroups(items, keys, u) == Asked(items, u)
  {
    if items == [] {
      InNoGroup<U, K>(keys, u);
    } else {
      var rest, x := items[..|items| - 1], items[|items| - 1];
      assert items == rest + [x];
      PartsAreAsked(rest, keys, u);
      BadsStep(rest, x);
      AskedStep(rest, x, u);
      InGroupsStep(rest, x, keys, u);
      OccursAppend(Bads(rest), x.name, u);
      OccursAppend(CachedOf(rest), x.name, u);
    }
  }

  ghost predicate DistinctNames<U, K>(items: seq<Item<U, K>>) {
    forall i, j :: 0 <= i < j < |items| ==> items[i].name != items[j].name
  }

  lemma {:induction false} AskedNever<U, K>(items: seq<Item<U, K>>, u: U)
    requires forall i :: 0 <= i < |items| ==> items[i].name != u
    ensures Asked(items, u) == 0
  {
    if items != [] {
      AskedNever(items[..|items| - 1], u);
    }
  }

  lemma {:induction false} AskedOnce<U, K>(items: seq<Item<U, K>>, u: U)
    requires DistinctNames(items)
    ensures Asked(items, u) <= 1
    ensures (exists i :: 0 <= i < |items| && items[i].name == u) ==> Asked(items, u) == 1
  {
    if items != [] {
      var n := |items| - 1;
      AskedOnce(items[..n], u);
      if items[n].name == u {
        AskedNever(items[..n], u);
      } else if i :| 0 <= i < |items| && items[i].name == u {
        assert items[..n][i].name == u;
      }
    }
  }

  lemma {:induction false} WantedAtMostAsked<U, K>(items: seq<Item<U, K>>, key: K, u: U)
    ensures Occurs(Wanted(items, key), u) <= Asked(items, u)
  {
    if items != [] {
      var rest, x := items[..|items| - 1], items[|items| - 1];
      assert items == rest + [x];
      WantedAtMostAsked(rest, key, u);
      WantedStep(rest, x, key);
      OccursAppend(Wanted(rest, key), x.name, u);
    }
  }

  lemma {:induction false} WantedIf<U, K>(items: seq<Item<U, K>>, x: Item<U, K>)
    requires x in items && x.Work?
    ensures Wanted(items, x.key) != []
  {
    var rest, y := items[..|items| - 1], items[|items| - 1];
    assert items == rest + [y];
    if x != y {
      WantedIf(rest, x);
    }
  }

  predicate Alike<U, K(==)>(x: Item<U, K>, key: K) {
    x.Work? && x.key == key
  }

  /** How many items from the i-th on need a handler of this key. */
  function AlikeFrom<U, K(==)>(items: seq<Item<U, K>>, key: K, i: nat): nat
    decreases |items| - i
  {
    if i >= |items| then 0 else (if Alike(items[i], key) then 1 else 0) + AlikeFrom(items, key, i + 1)
  }

  function CachedFrom<U, K>(items: seq<Item<U, K>>, i: nat): nat
    decreases |items| - i
  {
    if i >= |items| then 0 else (if items[i].Cached? then 1 else 0) + CachedFrom(items, i + 1)
  }

  lemma {:induction false} FromAppend<U, K>(items: seq<Item<U, K>>, x: Item<U, K>, key: K, i: nat)
    requires i <= |items|
    ensures AlikeFrom(items + [x], key, i) == AlikeFrom(items, key, i) + (if Alike(x, key) then 1 else 0)
    decreases |items| - i
  {
    if i < |items| {
      FromAppend(items, x, key, i + 1);
    }
  }

  /** In a group turned round, an item stands behind those of its key that were asked for after it. */
  lemma {:induction false} WantedAt<U, K>(items: seq<Item<U, K>>, key: K, i: nat)
    requires i < |items| && Alike(items[i], key)
    ensures AlikeFrom(items, key, i + 1) < |Wanted(items, key)|
    ensures Reverse(Wanted(items, key))[AlikeFrom(items, key, i + 1)] == items[i].name
  {
    WantedFromEnd(items, key, i);
    ReverseAt(Wanted(items, key), AlikeFrom(items, key, i + 1));
  }

  lemma {:induction false} WantedFromEnd<U, K>(items: seq<Item<U, K>>, key: K, i: nat)
    requires i < |items| && Alike(items[i], key)
    ensures var (w, c) := (Wanted(items, key), AlikeFrom(items, key, i + 1)); c < |w| && w[|w| - 1 - c] == items[i].name
  {
    var rest, x := items[..|items| - 1], items[|items| - 1];
    assert items == rest + [x];
    WantedStep(rest, x, key);
    if i < |rest| {
      WantedFromEnd(rest, key, i);
      FromAppend(rest, x, key, i + 1);
    }
  }

  lemma {:induction false} CachedAt<U, K>(items: seq<Item<U, K>>, i: nat)
    requires i < |items| && items[i].Cached?
    ensures CachedFrom(items, i + 1) < |CachedOf(items)|
    ensures Reverse(CachedOf(items))[CachedFrom(items, i + 1)] == items[i].name
  {
    CachedFromEnd(items, i);
    ReverseAt(CachedOf(items), CachedFrom(items, i + 1));
  }

  lemma {:induction false} CachedFromEnd<U, K>(items: seq<Item<U, K>>, i: nat)
    requires i < |items| && items[i].Cached?
    ensures var (w, c) := (CachedOf(items), CachedFrom(items, i + 1)); c < |w| && w[|w| - 1 - c] == items[i].name
  {
    var rest, x := items[..|items| - 1], items[|items| - 1];
    assert items == rest + [x];
    BadsStep(rest, x);
    if i < |rest| {
      CachedFromEnd(rest, i);
      CachedFromAppend(rest, x, i + 1);
    }
  }

  lemma {:induction false} CachedFromAppend<U, K>(items: seq<Item<U, K>>, x: Item<U, K>, i: nat)
    requires i <= |items|
    ensures CachedFrom(items + [x], i) == CachedFrom(items, i) + (if x.Cached? then 1 else 0)
    decreases |items| - i
  {
    if i < |items| {
      CachedFromAppend(items, x, i + 1);
    }
  }

  /** Whoever is wanted was asked for. */
  lemma {:induction false} WantedFrom<U, K>(items: seq<Item<U, K>>, key: K, k: nat) returns (i: nat)
    requires k < |Wanted(items, key)|
    ensures i < |items| && Alike(items[i], key) && items[i].name == Wanted(items, key)[k]
  {
    var rest, x := items[..|items| - 1], items[|items| - 1];
    assert items == rest + [x];
    WantedStep(rest, x, key);
    if k < |Wanted(rest, key)| {
      i := WantedFrom(rest, key, k);
    } else {
      i := |rest|;
    }
  }
}

/** How one request is split into groups and every URL answered: files, specialised services and
    plugins are oracles. */
module DispatchSpec {
  import opened Common
  import opened Grouping

  /** Asking the file system about one URL: its content type, if known, and whether all its
      thumbnails exist with a matching modification time. */
  datatype FileAnswer = Unreadable(message: string) | Readable(content: Option<string>, cached: bool)

  datatype SpecializedAnswer = Done | Failed(message: string) | TimedOut(message: string)

  datatype PluginAnswer = PluginOk | PluginFailed(failed: seq<string>, message: string)

  /** Who serves a scheme and MIME type. */
  datatype Handler = Proxy(answers: nat -> SpecializedAnswer) | Plugin(answer: PluginAnswer) | NoHandler

  datatype Signal = Ready(urls: seq<string>) | Error(num: nat, urls: seq<string>, code: nat, message: string)

  type Key = (string, string)

  type UrlItem = Item<string, Key>

  datatype Request = Request(num: nat, urls: seq<string>, hints: Option<seq<string>>, answers: seq<FileAnswer>)

  predicate Answered(r: Request) {
    |r.answers| == |r.urls|
  }

  function Hint(hints: Option<seq<string>>, i: nat): Option<string> {
    if hints.Some? && i < |hints.value| then Some(hints.value[i]) else None
  }

  function MimeOf(content: Option<string>, hint: Option<string>): string {
    if content.Some? then content.value else if hint.Some? then hint.value else "unknown/unknown"
  }

  /** Position of the first colon, or the length. */
  function ColonAt(url: string): (i: nat)
    ensures i <= |url| && (i < |url| ==> url[i] == ':') && ':' !in url[..i]
  {
    if url == [] || url[0] == ':' then 0
    else
      var k := 1 + ColonAt(url[1..]);
      assert url[..k] == [url[0]] + url[1..][..k - 1];
      k
  }

  function SchemeOf(url: string): string {
    if ColonAt(url) < |url| then url[..ColonAt(url)] else "file"
  }

  /** URLs without a scheme gain one before they reach a handler. */
  function Normal(url: string): string {
    if ColonAt(url) < |url| then url else "file://" + url
  }

  /** What becomes of one URL. */
  function Classify(url: string, hint: Option<string>, answer: FileAnswer): UrlItem {
    match answer
    case Unreadable(message) => Bad(url, message)
    case Readable(content, cached) =>
      if cached then Cached(url) else Work(Normal(url), (SchemeOf(url), MimeOf(content, hint)))
  }

  function Items(r: Request): (items: seq<UrlItem>)
    requires Answered(r)
    ensures |items| == |r.urls|
  {
    seq(|r.urls|, i requires 0 <= i < |r.urls| => Classify(r.urls[i], Hint(r.hints, i), r.answers[i]))
  }

  function Errors(num: nat, items: seq<UrlItem>): seq<Signal> {
    if items == [] then []
    else
      var x := items[|items| - 1];
      Errors(num, items[..|items| - 1]) + (if x.Bad? then [Error(num, [x.name], 1, x.message)] else [])
  }

  type Tables = map<string, map<string, seq<string>>>

  predicate Has(tables: Tables, key: Key) {
    key.0 in tables && key.1 in tables[key.0]
  }

  /** The two-level table is the filter by scheme and MIME type, in reverse request order. */
  ghost predicate TablesAre(tables: Tables, items: seq<UrlItem>) {
    && (forall key :: Has(tables, key) <==> Wanted(items, key) != [])
    && (forall key :: Has(tables, key) ==> tables[key.0][key.1] == Reverse(Wanted(items, key)))
  }

  // ---------------------------------------------------------------- what a group is answered

  function SpecializedSignal(num: nat, url: string, answer: SpecializedAnswer): Signal {
    match answer
    case Done => Ready([url])
    case Failed(message) => Error(num, [url], 1, message)
    case TimedOut(message) => Error(num, [url], 1, message)
  }

  function ProxySignals(num: nat, group: seq<string>, answers: nat -> SpecializedAnswer): seq<Signal> {
    if group == [] then []
    else
      var n := |group| - 1;
      ProxySignals(num, group[..n], answers) + [SpecializedSignal(num, group[n], answers(n))]
  }

  function ReadyIfAny(urls: seq<string>): seq<Signal> {
    if urls == [] then [] else [Ready(urls)]
  }

  function GroupSignals(num: nat, mime: string, group: seq<string>, handler: Handler): seq<Signal> {
    match handler
    case Proxy(answers) => ProxySignals(num, group, answers)
    case Plugin(PluginOk) => [Ready(group)]
    case Plugin(PluginFailed(failed, message)) => ReadyIfAny(Subtract(group, failed)) + [Error(num, failed, 1, message)]
    case NoHandler => [Error(num, group, 0, "No handler for " + mime)]
  }

  type Handlers = (string, string) -> Handler

  function KeySignals(num: nat, items: seq<UrlItem>, handlers: Handlers, k: Key): seq<Signal> {
    GroupSignals(num, k.1, Reverse(Wanted(items, k)), handlers(k.0, k.1))
  }

  function DrainSignals(num: nat, items: seq<UrlItem>, handlers: Handlers, order: seq<Key>): seq<Signal> {
    if order == [] then []
    else DrainSignals(num, items, handlers, order[..|order| - 1]) + KeySignals(num, items, handlers, order[|order| - 1])
  }

  /** Every group is drained, once, in whatever order the hash tables yield. */
  ghost predicate Covers(order: seq<Key>, items: seq<UrlItem>) {
    Distinct(order) && forall key :: key in order <==> Wanted(items, key) != []
  }

  function AllSignals(r: Request, handlers: Handlers, order: seq<Key>): seq<Signal>
    requires Answered(r)
  {
    var items := Items(r);
    Errors(r.num, items) + ReadyIfAny(Reverse(CachedOf(items))) + DrainSignals(r.num, items, handlers, order)
  }

  ghost predicate Drains(num: nat, items: seq<UrlItem>, handlers: Handlers, order: seq<Key>, signals: seq<Signal>) {
    Covers(order, items) && signals == DrainSignals(num, items, handlers, order)
  }

  /** The signals answer the request: its groups are drained in some order. */
  ghost predicate Answers(r: Request, handlers: Handlers, signals: seq<Signal>)
    requires Answered(r)
  {
    exists order :: Covers(order, Items(r)) && signals == AllSignals(r, handlers, order)
  }

  // ---------------------------------------------------------------- conservation

  /** How often the signals name a URL. */
  function Named(signals: seq<Signal>, u: string): nat {
    if signals == [] then 0
    else Named(signals[..|signals| - 1], u) + Occurs(signals[|signals| - 1].urls, u)
  }

  ghost predicate NamesExactly(signals: seq<Signal>, group: seq<string>) {
    forall u :: Named(signals, u) == Occurs(group, u)
  }

  /** The URLs a handler says have failed. */
  function FailedBy(handler: Handler): seq<string> {
    match handler
    case Plugin(PluginFailed(failed, _)) => failed
    case _ => []
  }

  /** A failing plugin names each of its failed URLs as often as it was given it. */
  ghost predicate Balanced(handler: Handler, group: seq<string>) {
    forall u :: Occurs(FailedBy(handler), u) == Occurs(Shared(group, FailedBy(handler)), u)
  }

  ghost predicate AllBalanced(items: seq<UrlItem>, handlers: Handlers) {
    forall key: Key :: Balanced(handlers(key.0, key.1), Reverse(Wanted(items, key)))
  }

  lemma {:induction false} NamedConcat(a: seq<Signal>, b: seq<Signal>, u: string)
    ensures Named(a + b, u) == Named(a, u) + Named(b, u)
  {
    if b == [] {
      assert a + b == a;
    } else {
      var n := |b| - 1;
      NamedConcat(a, b[..n], u);
      assert (a + b)[..|a + b| - 1] == a + b[..n];
    }
  }

  lemma NamedAppend(a: seq<Signal>, x: Signal, u: string)
    ensures Named(a + [x], u) == Named(a, u) + Occurs(x.urls, u)
  {
    assert (a + [x])[..|a|] == a;
  }

  lemma NamedReady(urls: seq<string>, u: string)
    ensures Named(ReadyIfAny(urls), u) == Occurs(urls, u)
  {
    NamedAppend([], Ready(urls), u);
  }

  lemma {:induction false} ProxyNames(num: nat, group: seq<string>, answers: nat -> SpecializedAnswer, u: string)
    ensures Named(ProxySignals(num, group, answers), u) == Occurs(group, u)
  {
    if group != [] {
      var n := |group| - 1;
      ProxyNames(num, group[..n], answers, u);
      OccursAppend([], group[n], u);
      NamedAppend(ProxySignals(num, group[..n], answers), SpecializedSignal(num, group[n], answers(n)), u);
    }
  }

  lemma GroupNames(num: nat, mime: string, group: seq<string>, handler: Handler, u: string)
    ensures Named(GroupSignals(num, mime, group, handler), u) - Occurs(group, u) ==
            Occurs(FailedBy(handler), u) - Occurs(Shared(group, FailedBy(handler)), u)
  {
    OccursSplit(group, FailedBy(handler), u);
    match handler
    case Proxy(answers) => ProxyNames(num, group, answers, u);
    case Plugin(PluginOk) => NamedAppend([], Ready(group), u);
    case Plugin(PluginFailed(failed, message)) =>
      NamedReady(Subtract(group, failed), u);
      NamedAppend(ReadyIfAny(Subtract(group, failed)), Error(num, failed, 1, message), u);
    case NoHandler => NamedAppend([], Error(num, group, 0, "No handler for " + mime), u);
  }

  /** A group's signals name exactly its URLs if and only if its handler is balanced. */
  lemma GroupIsConserved(num: nat, mime: string, group: seq<string>, handler: Handler)
    ensures NamesExactly(GroupSignals(num, mime, group, handler), group) <==> Balanced(handler, group)
  {
    forall u
      ensures Named(GroupSignals(num, mime, group, handler), u) - Occurs(group, u) ==
              Occurs(FailedBy(handler), u) - Occurs(Shared(group, FailedBy(handler)), u)
    {
      GroupNames(num, mime, group, handler, u);
    }
    var signals := GroupSignals(num, mime, group, handler);
    if NamesExactly(signals, group) {
      forall u ensures Occurs(FailedBy(handler), u) == Occurs(Shared(group, FailedBy(handler)), u) {
        assert Named(signals, u) == Occurs(group, u);
      }
    }
    if Balanced(handler, group) {
      forall u ensures Named(signals, u) == Occurs(group, u) {
        assert Occurs(FailedBy(handler), u) == Occurs(Shared(group, FailedBy(handler)), u);
      }
    }
  }

  lemma {:induction false} ErrorsName(num: nat, items: seq<UrlItem>, u: string)
    ensures Named(Errors(num, items), u) == Occurs(Bads(items), u)
  {
    if items != [] {
      var rest, x := items[..|items| - 1], items[|items| - 1];
      ErrorsName(num, rest, u);
      if x.Bad? {
        OccursAppend([], x.name, u);
        OccursAppend(Bads(rest), x.name, u);
        NamedAppend(Errors(num, rest), Error(num, [x.name], 1, x.message), u);
      } else {
        assert Errors(num, items) == Errors(num, rest) && Bads(items) == Bads(rest);
      }
    }
  }

  lemma KeyNames(num: nat, items: seq<UrlItem>, handlers: Handlers, k: Key, u: string)
    requires AllBalanced(items, handlers)
    ensures Named(KeySignals(num, items, handlers, k), u) == Occurs(Wanted(items, k), u)
  {
    var group := Reverse(Wanted(items, k));
    var handler := handlers(k.0, k.1);
    assert Balanced(handler, group);
    GroupNames(num, k.1, group, handler, u);
    OccursReverse(Wanted(items, k), u);
  }

  lemma {:induction false} DrainNames(num: nat, items: seq<UrlItem>, handlers: Handlers, order: seq<Key>, u: string)
    requires AllBalanced(items, handlers)
    ensures Named(DrainSignals(num, items, handlers, order), u) == InGroups(items, order, u)
  {
    if order != [] {
      var m := |order| - 1;
      DrainNames(num, items, handlers, order[..m], u);
      KeyNames(num, items, handlers, order[m], u);
      NamedConcat(DrainSignals(num, items, handlers, order[..m]), KeySignals(num, items, handlers, order[m]), u);
    }
  }

  lemma CoversLists(order: seq<Key>, items: seq<UrlItem>)
    requires Covers(order, items)
    ensures Listed(items, order)
  {
    forall x | x in items && x.Work? ensures x.key in order {
      WantedIf(items, x);
    }
  }

  lemma DrainedInOrder(r: Request, handlers: Handlers, order: seq<Key>, u: string)
    requires Answered(r) && Covers(order, Items(r)) && AllBalanced(Items(r), handlers)
    ensures Named(AllSignals(r, handlers, order), u) == Asked(Items(r), u)
  {
    var items := Items(r);
    var errors, ready, drained := Errors(r.num, items), ReadyIfAny(Reverse(CachedOf(items))), DrainSignals(r.num, items, handlers, order);
    CoversLists(order, items);
    PartsAreAsked(items, order, u);
    ErrorsName(r.num, items, u);
    NamedReady(Reverse(CachedOf(items)), u);
    OccursReverse(CachedOf(items), u);
    DrainNames(r.num, items, handlers, order, u);
    NamedConcat(errors, ready, u);
    NamedConcat(errors + ready, drained, u);
  }

  /** Nothing is lost and nothing answered twice: the signals of a request name every URL exactly as
      often as the request does, whatever the oracles answer and in whatever order groups are drained. */
  lemma RequestIsConserved(r: Request, handlers: Handlers, signals: seq<Signal>, u: string)
    requires Answered(r) && Answers(r, handlers, signals) && AllBalanced(Items(r), handlers)
    ensures Named(signals, u) == Asked(Items(r), u)
  {
    var order :| Covers(order, Items(r)) && signals == AllSignals(r, handlers, order);
    DrainedInOrder(r, handlers, order, u);
  }

  /** A URL asked for once is in exactly one signal. */
  lemma {:induction false} ExactlyOneSignal(signals: seq<Signal>, u: string) returns (i: nat)
    requires Named(signals, u) == 1
    ensures i < |signals| && u in signals[i].urls
    ensures forall j :: 0 <= j < |signals| && j != i ==> u !in signals[j].urls
  {
    var n := |signals| - 1;
    OccursIfIn(signals[n].urls, u);
    if u in signals[n].urls {
      i := n;
      NoSignal(signals[..n], u);
    } else {
      i := ExactlyOneSignal(signals[..n], u);
    }
  }

  lemma {:induction false} NoSignal(signals: seq<Signal>, u: string)
    requires Named(signals, u) == 0
    ensures forall j :: 0 <= j < |signals| ==> u !in signals[j].urls
  {
    if signals != [] {
      var n := |signals| - 1;
      NoSignal(signals[..n], u);
      OccursIfIn(signals[n].urls, u);
    }
  }

  /** What plugins promise: a failure names some of the URLs it was given, each once. */
  ghost predicate PluginsKeepPromise(items: seq<UrlItem>, handlers: Handlers) {
    forall key: Key :: NamesSome(FailedBy(handlers(key.0, key.1)), Reverse(Wanted(items, key)))
  }

  predicate NamesSome(failed: seq<string>, group: seq<string>) {
    Distinct(failed) && forall u :: u in failed ==> u in group
  }

  lemma NamesSomeIsBalanced(handler: Handler, group: seq<string>)
    requires NamesSome(FailedBy(handler), group) && forall u :: Occurs(group, u) <= 1
    ensures Balanced(handler, group)
  {
    var failed := FailedBy(handler);
    forall u ensures Occurs(failed, u) == Occurs(Shared(group, failed), u) {
      OccursOnce(failed, u);
      OccursSplit(group, failed, u);
      OccursIfIn(failed, u);
      OccursIfIn(group, u);
    }
  }

  lemma DistinctIsBalanced(items: seq<UrlItem>, handlers: Handlers)
    requires DistinctNames(items) && PluginsKeepPromise(items, handlers)
    ensures AllBalanced(items, handlers)
  {
    forall key: Key ensures Balanced(handlers(key.0, key.1), Reverse(Wanted(items, key))) {
      var group := Reverse(Wanted(items, key));
      forall u ensures Occurs(group, u) <= 1 {
        OccursReverse(Wanted(items, key), u);
        WantedAtMostAsked(items, key, u);
        AskedOnce(items, u);
      }
      assert NamesSome(FailedBy(handlers(key.0, key.1)), group);
      NamesSomeIsBalanced(handlers(key.0, key.1), group);
    }
  }

  /** In a request whose URLs, as handlers see them, are distinct, each lands in exactly one Ready or
      Error signal. */
  lemma EveryUrlOnce(r: Request, handlers: Handlers, signals: seq<Signal>, i: nat) returns (k: nat)
    requires Answered(r) && i < |r.urls| && Answers(r, handlers, signals)
    requires DistinctNames(Items(r)) && PluginsKeepPromise(Items(r), handlers)
    ensures var u := Items(r)[i].name;
      && k < |signals| && u in signals[k].urls
      && forall j :: 0 <= j < |signals| && j != k ==> u !in signals[j].urls
  {
    var u := Items(r)[i].name;
    AskedOnce(Items(r), u);
    DistinctIsBalanced(Items(r), handlers);
    RequestIsConserved(r, handlers, signals, u);
    k := ExactlyOneSignal(signals, u);
  }
}

/** The loops of the worker function. */
module Dispatch {
  import opened Common
  import opened Grouping
  import opened DispatchSpec

  /** A group as an array, without the failed URLs. */
  method SubtractStrv(a: seq<string>, b: seq<string>) returns (left: seq<string>)
    ensures left == Subtract(a, b)
  {
    left := [];
    var i := 0;
    while i < |a|
      invariant 0 <= i <= |a|
      invariant left == Subtract(a[..i], b)
    {
      var y := 0;
      var found := false;
      while y < |b| && !found
        invariant 0 <= y <= |b|
        invariant found <==> a[i] in b[..y]
      {
        if a[i] == b[y] { found := true; }
        y := y + 1;
      }
      assert found ==> a[i] in b;
      assert !found ==> b[..y] == b;
      assert a[..i + 1][..i] == a[..i];
      if !found { left := left + [a[i]]; }
      i := i + 1;
    }
    assert a[..i] == a;
  }

  lemma TablesSame(tables: Tables, items: seq<UrlItem>, x: UrlItem)
    requires !x.Work? && TablesAre(tables, items)
    ensures TablesAre(tables, items + [x])
  {
    forall key ensures Wanted(items + [x], key) == Wanted(items, key) {
      WantedStep(items, x, key);
    }
  }

  lemma TablesStep(tables: Tables, tables': Tables, items: seq<UrlItem>, x: UrlItem)
    requires x.Work? && TablesAre(tables, items)
    requires var hash := if x.key.0 in tables then tables[x.key.0] else map[];
      var group := if x.key.1 in hash then hash[x.key.1] else [];
      tables' == tables[x.key.0 := hash[x.key.1 := [x.name] + group]]
    ensures TablesAre(tables', items + [x])
  {
    forall key
      ensures Has(tables', key) <==> Wanted(items + [x], key) != []
      ensures Has(tables', key) ==> tables'[key.0][key.1] == Reverse(Wanted(items + [x], key))
    {
      WantedStep(items, x, key);
      if key == x.key {
        ReverseAppend(Wanted(items, key), x.name);
        assert !Has(tables, key) ==> Wanted(items, key) == [];
      } else {
        assert Has(tables', key) <==> Has(tables, key);
      }
    }
  }

  /** Prepends a URL to its group. */
  method AddToTable(tables0: Tables, scheme: string, mime: string, uri: string, ghost items: seq<UrlItem>)
    returns (tables: Tables)
    requires TablesAre(tables0, items)
    ensures TablesAre(tables, items + [Work(uri, (scheme, mime))])
  {
    var hash: map<string, seq<string>> := map[];
    var urlsForMime: seq<string> := [];
    if scheme in tables0 {
      hash := tables0[scheme];
      if mime in hash { urlsForMime := hash[mime]; }
    }
    urlsForMime := [uri] + urlsForMime;
    tables := tables0[scheme := hash[mime := urlsForMime]];
    TablesStep(tables0, tables, items, Work(uri, (scheme, mime)));
  }

  lemma ErrorsStep(num: nat, items: seq<UrlItem>, x: UrlItem)
    ensures Errors(num, items + [x]) == if x.Bad? then Errors(num, items) + [Error(num, [x.name], 1, x.message)] else Errors(num, items)
  {
    assert (items + [x])[..|items|] == items;
  }

  /** What the loop has collected from some items. */
  ghost predicate Collected(num: nat, items: seq<UrlItem>, signals: seq<Signal>, cached: seq<string>, tables: Tables) {
    signals == Errors(num, items) && cached == Reverse(CachedOf(items)) && TablesAre(tables, items)
  }

  /** One turn of the loop: an error at once, a cached item aside, anything else into the table. */
  method SplitOne(num: nat, url: string, hint: Option<string>, answer: FileAnswer, ghost items: seq<UrlItem>,
                  signals0: seq<Signal>, cached0: seq<string>, tables0: Tables)
    returns (signals: seq<Signal>, cached: seq<string>, tables: Tables)
    requires Collected(num, items, signals0, cached0, tables0)
    ensures Collected(num, items + [Classify(url, hint, answer)], signals, cached, tables)
  {
    ghost var x := Classify(url, hint, answer);
    BadsStep(items, x);
    ErrorsStep(num, items, x);
    signals, cached, tables := signals0, cached0, tables0;
    match answer
    case Unreadable(message) =>
      signals := signals + [Error(num, [url], 1, message)];
      TablesSame(tables, items, x);
    case Readable(content, hasThumb) =>
      if !hasThumb {
        tables := AddToTable(tables, SchemeOf(url), MimeOf(content, hint), Normal(url), items);
      } else {
        ReverseAppend(CachedOf(items), url);
        TablesSame(tables, items, x);
        cached := [url] + cached;
      }
  }

  /** The first loop. */
  method Split(r: Request) returns (signals: seq<Signal>, cached: seq<string>, tables: Tables)
    requires Answered(r)
    ensures Collected(r.num, Items(r), signals, cached, tables)
  {
    signals, cached, tables := [], [], map[];
    var i := 0;
    assert Items(r)[..0] == [];
    while i < |r.urls|
      invariant 0 <= i <= |r.urls|
      invariant Collected(r.num, Items(r)[..i], signals, cached, tables)
      decreases |r.urls| - i
    {
      assert Items(r)[..i + 1] == Items(r)[..i] + [Items(r)[i]];
      signals, cached, tables := SplitOne(r.num, r.urls[i], Hint(r.hints, i), r.answers[i], Items(r)[..i], signals, cached, tables);
      i := i + 1;
    }
    assert Items(r)[..i] == Items(r);
  }

  /** One group: a specialised service, else a plugin, else an apology. */
  method ServeGroup(num: nat, mime: string, group: seq<string>, handler: Handler) returns (signals: seq<Signal>)
    ensures signals == GroupSignals(num, mime, group, handler)
  {
    match handler
    case Proxy(answers) =>
      signals := [];
      var o := 0;
      while o < |group|
        invariant 0 <= o <= |group|
        invariant signals == ProxySignals(num, group[..o], answers)
      {
        assert group[..o + 1][..o] == group[..o];
        match answers(o) {
          case Done => signals := signals + [Ready([group[o]])];
          case Failed(message) => signals := signals + [Error(num, [group[o]], 1, message)];
          case TimedOut(message) => signals := signals + [Error(num, [group[o]], 1, message)];
        }
        o := o + 1;
      }
      assert group[..o] == group;
    case Plugin(PluginOk) =>
      signals := [Ready(group)];
    case Plugin(PluginFailed(failed, message)) =>
      var left := SubtractStrv(group, failed);
      signals := [];
      if left != [] { signals := [Ready(left)]; }
      signals := signals + [Error(num, failed, 1, message)];
    case NoHandler =>
      signals := [Error(num, group, 0, "No handler for " + mime)];
  }

  /** `order` lists what is drained: all of the schemes no longer `left`, except what one of them still has in `hash`. */
  ghost predicate Drained(order: seq<Key>, left: set<string>, scheme: string, hash: map<string, seq<string>>, tables: Tables) {
    && Distinct(order)
    && (forall key :: key in order <==> Has(tables, key) && key.0 !in left && !(key.0 == scheme && key.1 in hash))
  }

  lemma DrainedStep(order: seq<Key>, left: set<string>, scheme: string, hash: map<string, seq<string>>, tables: Tables, mime: string)
    requires Drained(order, left, scheme, hash, tables)
    requires scheme in tables && scheme !in left && mime in hash && mime in tables[scheme]
    ensures Drained(order + [(scheme, mime)], left, scheme, hash - {mime}, tables)
  {
    var all := order + [(scheme, mime)];
    assert (scheme, mime) !in order;
    forall key ensures key in all <==> Has(tables, key) && key.0 !in left && !(key.0 == scheme && key.1 in hash - {mime}) {
      assert key in all <==> key in order || key == (scheme, mime);
    }
  }

  lemma DrainedNext(order: seq<Key>, left: set<string>, scheme: string, tables: Tables)
    requires scheme in tables && scheme !in left && Drained(order, left + {scheme}, "", map[], tables)
    ensures Drained(order, left, scheme, tables[scheme], tables)
  {}

  lemma DrainedEnd(order: seq<Key>, left: set<string>, scheme: string, tables: Tables)
    requires Drained(order, left, scheme, map[], tables)
    ensures Drained(order, left, "", map[], tables)
  {}

  lemma AllDrained(order: seq<Key>, tables: Tables, items: seq<UrlItem>)
    requires TablesAre(tables, items) && Drained(order, {}, "", map[], tables)
    ensures Covers(order, items)
  {}

  lemma DrainAppend(num: nat, items: seq<UrlItem>, handlers: Handlers, order: seq<Key>, k: Key)
    ensures DrainSignals(num, items, handlers, order + [k]) == DrainSignals(num, items, handlers, order) + KeySignals(num, items, handlers, k)
  {
    assert (order + [k])[..|order|] == order;
  }

  /** One group leaves its table and is served. */
  method DrainGroup(num: nat, ghost items: seq<UrlItem>, handlers: Handlers, ghost tables: Tables,
                    scheme: string, mime: string, urls: seq<string>, ghost order: seq<Key>)
    returns (signals: seq<Signal>)
    requires TablesAre(tables, items) && Has(tables, (scheme, mime)) && urls == tables[scheme][mime]
    ensures DrainSignals(num, items, handlers, order) + signals == DrainSignals(num, items, handlers, order + [(scheme, mime)])
  {
    signals := ServeGroup(num, mime, urls, handlers(scheme, mime));
    DrainAppend(num, items, handlers, order, (scheme, mime));
  }

  /** The inner loop: visits every entry of one scheme's table once, removing what it visits; `hash` is
      the table as it is left. */
  method DrainScheme(num: nat, ghost items: seq<UrlItem>, handlers: Handlers, tables: Tables, scheme: string,
                     ghost left: set<string>, ghost before: seq<Key>, signals0: seq<Signal>)
    returns (signals: seq<Signal>, hash: map<string, seq<string>>, ghost order: seq<Key>)
    requires TablesAre(tables, items) && signals0 == DrainSignals(num, items, handlers, before)
    requires scheme in tables && scheme !in left && Drained(before, left, scheme, tables[scheme], tables)
    ensures hash == map[] && Drained(order, left, scheme, map[], tables)
    ensures signals == DrainSignals(num, items, handlers, order)
  {
    signals, hash, order := signals0, tables[scheme], before;
    var unvisited := hash.Keys;
    while unvisited != {}
      invariant unvisited == hash.Keys
      invariant forall m :: m in hash ==> Has(tables, (scheme, m)) && hash[m] == tables[scheme][m]
      invariant Drained(order, left, scheme, hash, tables)
      invariant signals == DrainSignals(num, items, handlers, order)
      decreases unvisited
    {
      var mime :| mime in unvisited;
      unvisited := unvisited - {mime};
      var urls := hash[mime];
      assert Has(tables, (scheme, mime));
      DrainedStep(order, left, scheme, hash, tables, mime);
      hash := hash - {mime};
      var more := DrainGroup(num, items, handlers, tables, scheme, mime, urls, order);
      signals := signals + more;
      order := order + [(scheme, mime)];
    }
    assert hash.Keys == {};
  }

  /** The outer loop, over the schemes in any order. */
  method DrainAll(num: nat, ghost items: seq<UrlItem>, handlers: Handlers, tables: Tables) returns (signals: seq<Signal>)
    requires TablesAre(tables, items)
    ensures exists order :: Drains(num, items, handlers, order, signals)
  {
    signals := [];
    ghost var order := [];
    var left := tables.Keys;
    while left != {}
      invariant left <= tables.Keys
      invariant Drained(order, left, "", map[], tables)
      invariant signals == DrainSignals(num, items, handlers, order)
      decreases left
    {
      var scheme :| scheme in left;
      ghost var all := left;
      left := left - {scheme};
      assert all == left + {scheme};
      DrainedNext(order, left, scheme, tables);
      var hash;
      signals, hash, order := DrainScheme(num, items, handlers, tables, scheme, left, order, signals);
      assert |hash| == 0;
      DrainedEnd(order, left, scheme, tables);
    }
    AllDrained(order, tables, items);
    assert Drains(num, items, handlers, order, signals);
  }

  /** The whole processing of a request that was not unqueued. */
  method Process(r: Request, handlers: Handlers) returns (signals: seq<Signal>)
    requires Answered(r)
    ensures Answers(r, handlers, signals)
  {
    var cached, schemes;
    signals, cached, schemes := Split(r);
    if |cached| > 0 {
      signals := signals + [Ready(cached)];
    }
    var more := DrainAll(r.num, Items(r), handlers, schemes);
    ghost var order :| Drains(r.num, Items(r), handlers, order, more);
    signals := signals + more;
    assert signals == AllSignals(r, handlers, order);
  }
}
