/** What each URL of a request is told, read off the request and the answers of the oracles alone. */
module DispatchVerdicts {
  import opened Common
  import opened Grouping
  import opened DispatchSpec

  // ---------------------------------------------------------------- the request, without the model's own terms

  predicate NoColon(s: string) {
    forall q :: 0 <= q < |s| ==> s[q] != ':'
  }

  /** The scheme is what stands before the first colon; without a colon it is `file`. */
  ghost predicate HasScheme(url: string, scheme: string) {
    (exists p :: 0 <= p < |url| && ColonFirst(url, p) && scheme == url[..p]) || (NoColon(url) && scheme == "file")
  }

  predicate ColonFirst(url: string, p: int) {
    0 <= p < |url| && url[p] == ':' && NoColon(url[..p])
  }

  /** A readable URL whose thumbnails are missing or old. */
  predicate NeedsWork(r: Request, i: nat)
    requires Answered(r) && i < |r.urls|
  {
    r.answers[i].Readable? && !r.answers[i].cached
  }

  /** The content type, else the hint of that position, else `unknown/unknown`. */
  predicate HasMime(r: Request, i: nat, mime: string)
    requires Answered(r) && i < |r.urls|
  {
    && r.answers[i].Readable?
    && (r.answers[i].content.Some? ==> mime == r.answers[i].content.value)
    && (r.answers[i].content.None? && r.hints.Some? && i < |r.hints.value| ==> mime == r.hints.value[i])
    && (r.answers[i].content.None? && !(r.hints.Some? && i < |r.hints.value|) ==> mime == "unknown/unknown")
  }

  ghost predicate GoesTo(r: Request, i: nat, scheme: string, mime: string)
    requires Answered(r) && i < |r.urls|
  {
    NeedsWork(r, i) && HasScheme(r.urls[i], scheme) && HasMime(r, i, mime)
  }

  /** The name by which the URL is signalled. */
  function SignalledAs(r: Request, i: nat): string
    requires Answered(r) && i < |r.urls|
  {
    if NeedsWork(r, i) && NoColon(r.urls[i]) then "file://" + r.urls[i] else r.urls[i]
  }

  /** How many URLs from the j-th on go to the same handler. */
  ghost function LaterAlike(r: Request, j: nat, scheme: string, mime: string): nat
    requires Answered(r)
    decreases |r.urls| - j
  {
    if j >= |r.urls| then 0
    else (if GoesTo(r, j, scheme, mime) then 1 else 0) + LaterAlike(r, j + 1, scheme, mime)
  }

  function LaterCached(r: Request, j: nat): nat
    requires Answered(r)
    decreases |r.urls| - j
  {
    if j >= |r.urls| then 0
    else (if r.answers[j].Readable? && r.answers[j].cached then 1 else 0) + LaterCached(r, j + 1)
  }

  function EarlierUnreadable(r: Request, j: nat): nat
    requires Answered(r) && j <= |r.urls|
  {
    if j == 0 then 0 else EarlierUnreadable(r, j - 1) + (if r.answers[j - 1].Unreadable? then 1 else 0)
  }

  // ---------------------------------------------------------------- what the items are

  lemma {:induction false} FirstColon(url: string, p: int)
    requires ColonFirst(url, p)
    ensures ColonAt(url) == p
  {
    if p > 0 {
      assert url[0] == url[..p][0];
      assert url[1..][..p - 1] == url[..p][1..];
      FirstColon(url[1..], p - 1);
    }
  }

  lemma {:induction false} NoColonAt(url: string)
    requires NoColon(url)
    ensures ColonAt(url) == |url|
  {
    if url != [] {
      NoColonAt(url[1..]);
    }
  }

  lemma ColonIs(url: string)
    ensures NoColon(url) <==> ColonAt(url) == |url|
    ensures ColonAt(url) < |url| ==> ColonFirst(url, ColonAt(url))
  {
    if NoColon(url) {
      NoColonAt(url);
    } else {
      var p := ColonAt(url);
      forall q | 0 <= q < |url[..p]| ensures url[..p][q] != ':' {
        assert url[..p][q] in url[..p];
      }
    }
  }

  lemma SchemeIs(url: string, scheme: string)
    ensures HasScheme(url, scheme) <==> scheme == SchemeOf(url)
  {
    ColonIs(url);
    if HasScheme(url, scheme) && !NoColon(url) {
      var p :| 0 <= p < |url| && ColonFirst(url, p) && scheme == url[..p];
      FirstColon(url, p);
    }
  }

  lemma ItemIs(r: Request, i: nat, scheme: string, mime: string)
    requires Answered(r) && i < |r.urls|
    ensures Items(r)[i].name == SignalledAs(r, i)
    ensures Items(r)[i].Work? <==> NeedsWork(r, i)
    ensures GoesTo(r, i, scheme, mime) <==> Alike(Items(r)[i], (scheme, mime))
    ensures Items(r)[i].Cached? <==> r.answers[i].Readable? && r.answers[i].cached
    ensures Items(r)[i].Bad? <==> r.answers[i].Unreadable?
  {
    SchemeIs(r.urls[i], scheme);
    ColonIs(r.urls[i]);
  }

  lemma {:induction false} LaterAlikeIs(r: Request, j: nat, scheme: string, mime: string)
    requires Answered(r)
    ensures LaterAlike(r, j, scheme, mime) == AlikeFrom(Items(r), (scheme, mime), j)
    decreases |r.urls| - j
  {
    if j < |r.urls| {
      ItemIs(r, j, scheme, mime);
      LaterAlikeIs(r, j + 1, scheme, mime);
    }
  }

  lemma {:induction false} LaterCachedIs(r: Request, j: nat)
    requires Answered(r)
    ensures LaterCached(r, j) == CachedFrom(Items(r), j)
    decreases |r.urls| - j
  {
    if j < |r.urls| {
      LaterCachedIs(r, j + 1);
    }
  }

  // ---------------------------------------------------------------- where its signal is

  lemma {:induction false} ErrorAt(num: nat, items: seq<UrlItem>, i: nat)
    requires i < |items| && items[i].Bad?
    ensures |Errors(num, items[..i])| < |Errors(num, items)|
    ensures Errors(num, items)[|Errors(num, items[..i])|] == Error(num, [items[i].name], 1, items[i].message)
  {
    var n := |items| - 1;
    if i < n {
      ErrorAt(num, items[..n], i);
      assert items[..n][..i] == items[..i];
    }
  }

  lemma {:induction false} ErrorCount(r: Request, j: nat)
    requires Answered(r) && j <= |r.urls|
    ensures |Errors(r.num, Items(r)[..j])| == EarlierUnreadable(r, j)
  {
    if j > 0 {
      ErrorCount(r, j - 1);
      assert Items(r)[..j][..j - 1] == Items(r)[..j - 1];
    }
  }

  /** What a specialised service's answer for a URL is told as. */
  predicate ToldByService(num: nat, name: string, answer: SpecializedAnswer, x: Signal) {
    match answer
    case Done => x == Ready([name])
    case Failed(message) => x == Error(num, [name], 1, message)
    case TimedOut(message) => x == Error(num, [name], 1, message)
  }

  lemma {:induction false} ProxyAt(num: nat, group: seq<string>, answers: nat -> SpecializedAnswer, n: nat)
    requires n < |group|
    ensures |ProxySignals(num, group, answers)| == |group|
    ensures ToldByService(num, group[n], answers(n), ProxySignals(num, group, answers)[n])
  {
    var m := |group| - 1;
    if n < m {
      ProxyAt(num, group[..m], answers, n);
    } else if m > 0 {
      ProxyAt(num, group[..m], answers, 0);
    }
  }

  lemma {:induction false} NotSubtracted(a: seq<string>, b: seq<string>, i: nat)
    requires i < |a| && a[i] !in b
    ensures a[i] in Subtract(a, b)
  {
    var n := |a| - 1;
    if i < n {
      NotSubtracted(a[..n], b, i);
    }
  }

  /** What member n of a group is told by the handler of the group. */
  predicate ToldBy(num: nat, mime: string, name: string, n: nat, handler: Handler, x: Signal) {
    match handler
    case Proxy(answers) => ToldByService(num, name, answers(n), x)
    case Plugin(PluginOk) => x.Ready? && n < |x.urls| && x.urls[n] == name
    case Plugin(PluginFailed(failed, message)) => if name in failed then x == Error(num, failed, 1, message) else x.Ready?
    case NoHandler => x.Error? && n < |x.urls| && x == Error(num, x.urls, 0, "No handler for " + mime) && x.urls[n] == name
  }

  lemma GroupTells(num: nat, mime: string, group: seq<string>, handler: Handler, n: nat) returns (k: nat)
    requires n < |group|
    ensures k < |GroupSignals(num, mime, group, handler)|
    ensures var x := GroupSignals(num, mime, group, handler)[k]; group[n] in x.urls && ToldBy(num, mime, group[n], n, handler, x)
  {
    k := 0;
    match handler
    case Proxy(answers) =>
      ProxyAt(num, group, answers, n);
      k := n;
    case Plugin(PluginFailed(failed, message)) =>
      if group[n] in failed {
        k := |ReadyIfAny(Subtract(group, failed))|;
      } else {
        NotSubtracted(group, failed, n);
      }
    case _ =>
  }

  lemma {:induction false} DrainHolds(num: nat, items: seq<UrlItem>, handlers: Handlers, order: seq<Key>, p: nat, j: nat) returns (k: nat)
    requires p < |order| && j < |KeySignals(num, items, handlers, order[p])|
    ensures k < |DrainSignals(num, items, handlers, order)|
    ensures DrainSignals(num, items, handlers, order)[k] == KeySignals(num, items, handlers, order[p])[j]
  {
    var n := |order| - 1;
    if p < n {
      k := DrainHolds(num, items, handlers, order[..n], p, j);
    } else {
      k := |DrainSignals(num, items, handlers, order[..n])| + j;
    }
  }

  // ---------------------------------------------------------------- verdicts

  /** What the URL is told, read off the oracles: an unreadable file is an error with its message; one
      with current thumbnails is ready; any other is told what the handler of its scheme and MIME type
      answered, asked as many places down as later URLs go to the same handler. */
  ghost predicate Expected(r: Request, handlers: Handlers, i: nat, scheme: string, mime: string, x: Signal)
    requires Answered(r) && i < |r.urls|
  {
    match r.answers[i]
    case Unreadable(message) => x == Error(r.num, [r.urls[i]], 1, message)
    case Readable(_, cached) =>
      if cached then x.Ready?
      else ToldBy(r.num, mime, SignalledAs(r, i), LaterAlike(r, i + 1, scheme, mime), handlers(scheme, mime), x)
  }

  lemma UnreadableTold(r: Request, handlers: Handlers, order: seq<Key>, i: nat) returns (k: nat)
    requires Answered(r) && i < |r.urls| && r.answers[i].Unreadable?
    ensures k == EarlierUnreadable(r, i) && k < |AllSignals(r, handlers, order)|
    ensures AllSignals(r, handlers, order)[k] == Error(r.num, [r.urls[i]], 1, r.answers[i].message)
  {
    k := EarlierUnreadable(r, i);
    ErrorAt(r.num, Items(r), i);
    ErrorCount(r, i);
  }

  lemma CachedTold(r: Request, handlers: Handlers, order: seq<Key>, i: nat) returns (k: nat)
    requires Answered(r) && i < |r.urls| && r.answers[i].Readable? && r.answers[i].cached
    ensures k == EarlierUnreadable(r, |r.urls|) && k < |AllSignals(r, handlers, order)|
    ensures var x := AllSignals(r, handlers, order)[k]; var c := LaterCached(r, i + 1);
      x.Ready? && c < |x.urls| && x.urls[c] == r.urls[i]
  {
    k := EarlierUnreadable(r, |r.urls|);
    ErrorCount(r, |r.urls|);
    assert Items(r)[..|r.urls|] == Items(r);
    CachedAt(Items(r), i);
    LaterCachedIs(r, i + 1);
  }

  lemma WorkTold(r: Request, handlers: Handlers, order: seq<Key>, i: nat, scheme: string, mime: string) returns (k: nat)
    requires Answered(r) && i < |r.urls| && Covers(order, Items(r)) && GoesTo(r, i, scheme, mime)
    ensures k < |AllSignals(r, handlers, order)|
    ensures var x := AllSignals(r, handlers, order)[k];
      SignalledAs(r, i) in x.urls && Expected(r, handlers, i, scheme, mime, x)
  {
    var items, key := Items(r), (scheme, mime);
    ItemIs(r, i, scheme, mime);
    WantedAt(items, key, i);
    LaterAlikeIs(r, i + 1, scheme, mime);
    assert Wanted(items, key) != [] && key in order;
    var p :| 0 <= p < |order| && order[p] == key;
    var j := GroupTells(r.num, mime, Reverse(Wanted(items, key)), handlers(scheme, mime), LaterAlike(r, i + 1, scheme, mime));
    k := DrainHolds(r.num, items, handlers, order, p, j);
    k := |Errors(r.num, items)| + |ReadyIfAny(Reverse(CachedOf(items)))| + k;
  }

  /** Each URL of a request is in a signal that tells it what the oracles answered. Errors of unreadable
      files come first, in request order, then the cached URLs in one signal, the last one asked for first. */
  lemma EveryUrlIsTold(r: Request, handlers: Handlers, signals: seq<Signal>, i: nat, scheme: string, mime: string) returns (k: nat)
    requires Answered(r) && i < |r.urls| && Answers(r, handlers, signals)
    requires NeedsWork(r, i) ==> HasScheme(r.urls[i], scheme) && HasMime(r, i, mime)
    ensures k < |signals| && SignalledAs(r, i) in signals[k].urls && Expected(r, handlers, i, scheme, mime, signals[k])
    ensures r.answers[i].Unreadable? ==> k == EarlierUnreadable(r, i)
    ensures r.answers[i].Readable? && r.answers[i].cached ==>
      k == EarlierUnreadable(r, |r.urls|) && LaterCached(r, i + 1) < |signals[k].urls| && signals[k].urls[LaterCached(r, i + 1)] == r.urls[i]
  {
    var order :| Covers(order, Items(r)) && signals == AllSignals(r, handlers, order);
    if r.answers[i].Unreadable? {
      k := UnreadableTold(r, handlers, order, i);
    } else if r.answers[i].cached {
      k := CachedTold(r, handlers, order, i);
    } else {
      k := WorkTold(r, handlers, order, i, scheme, mime);
    }
  }

  /** No two URLs are signalled by the same name. */
  predicate DistinctUrls(r: Request)
    requires Answered(r)
  {
    forall i, j :: 0 <= i < j < |r.urls| ==> SignalledAs(r, i) != SignalledAs(r, j)
  }

  /** A failing plugin names URLs it was given, each once. */
  ghost predicate PluginsFailTheirOwn(r: Request, handlers: Handlers)
    requires Answered(r)
  {
    forall scheme, mime :: FailsItsOwn(r, FailedBy(handlers(scheme, mime)), scheme, mime)
  }

  ghost predicate FailsItsOwn(r: Request, failed: seq<string>, scheme: string, mime: string)
    requires Answered(r)
  {
    Distinct(failed) && forall u :: u in failed ==> WasGiven(r, u, scheme, mime)
  }

  ghost predicate WasGiven(r: Request, u: string, scheme: string, mime: string)
    requires Answered(r)
  {
    exists i :: 0 <= i < |r.urls| && GoesTo(r, i, scheme, mime) && u == SignalledAs(r, i)
  }

  lemma {:induction false} InGroup(items: seq<UrlItem>, key: Key, i: nat)
    requires i < |items| && Alike(items[i], key)
    ensures items[i].name in Reverse(Wanted(items, key))
  {
    WantedAt(items, key, i);
  }

  lemma PromiseKept(r: Request, handlers: Handlers)
    requires Answered(r) && PluginsFailTheirOwn(r, handlers)
    ensures PluginsKeepPromise(Items(r), handlers)
  {
    forall key: Key ensures NamesSome(FailedBy(handlers(key.0, key.1)), Reverse(Wanted(Items(r), key))) {
      var failed := FailedBy(handlers(key.0, key.1));
      assert FailsItsOwn(r, failed, key.0, key.1);
      forall u | u in failed ensures u in Reverse(Wanted(Items(r), key)) {
        assert WasGiven(r, u, key.0, key.1);
        var i :| 0 <= i < |r.urls| && GoesTo(r, i, key.0, key.1) && u == SignalledAs(r, i);
        ItemIs(r, i, key.0, key.1);
        InGroup(Items(r), key, i);
      }
    }
  }

  lemma NamesDiffer(r: Request)
    requires Answered(r) && DistinctUrls(r)
    ensures DistinctNames(Items(r))
  {
    forall i, j | 0 <= i < j < |r.urls| ensures Items(r)[i].name != Items(r)[j].name {
      ItemIs(r, i, "", "");
      ItemIs(r, j, "", "");
    }
  }

  /** Whether a URL is to be reported ready. */
  ghost predicate Succeeds(r: Request, handlers: Handlers, i: nat, scheme: string, mime: string)
    requires Answered(r) && i < |r.urls|
  {
    r.answers[i].Readable? &&
    (r.answers[i].cached ||
     match handlers(scheme, mime)
     case Proxy(answers) => answers(LaterAlike(r, i + 1, scheme, mime)) == Done
     case Plugin(PluginOk) => true
     case Plugin(PluginFailed(failed, _)) => SignalledAs(r, i) !in failed
     case NoHandler => false)
  }

  /** With distinct URLs, whatever signal names a URL tells it what the oracles answered: it is Ready if
      and only if the file had current thumbnails, or the service or plugin of its scheme and MIME type
      succeeded for it. */
  lemma VerdictIsTheOracles(r: Request, handlers: Handlers, signals: seq<Signal>, i: nat, scheme: string, mime: string, k: nat)
    requires Answered(r) && i < |r.urls| && Answers(r, handlers, signals)
    requires DistinctUrls(r) && PluginsFailTheirOwn(r, handlers)
    requires NeedsWork(r, i) ==> HasScheme(r.urls[i], scheme) && HasMime(r, i, mime)
    requires k < |signals| && SignalledAs(r, i) in signals[k].urls
    ensures Expected(r, handlers, i, scheme, mime, signals[k])
    ensures signals[k].Ready? <==> Succeeds(r, handlers, i, scheme, mime)
  {
    NamesDiffer(r);
    PromiseKept(r, handlers);
    ItemIs(r, i, scheme, mime);
    var told := EveryUrlIsTold(r, handlers, signals, i, scheme, mime);
    var only := EveryUrlOnce(r, handlers, signals, i);
    assert told == only && k == only;
  }
}
