/** The prompt cache of src/ocr/prompt_fetcher.c against the database it polls. */
module PromptFetcher {
  import opened Bytes

  const MAX_CACHED: nat := 64

  datatype Prompt = Prompt(name: string, content: string)

  // ---- Snapshots as maps ----

  predicate Distinct(s: seq<Prompt>) { forall i, j | 0 <= i < j < |s| :: s[i].name != s[j].name }

  function Names(s: seq<Prompt>): set<string> { set p | p in s :: p.name }

  /** What a reader of these prompts knows; a later entry for a name replaces an earlier one. */
  function Known(s: seq<Prompt>): map<string, string> { Learned(map[], s) }

  /** A reader who knows m and is told of each of these prompts in turn. */
  function Learned(m: map<string, string>, told: seq<Prompt>): map<string, string>
    decreases |told|
  {
    if told == [] then m else Learned(m[told[0].name := told[0].content], told[1..])
  }

  // ---- One poll on the cache as a sequence ----

  /** The first entry with this name, or the number of entries. */
  function Find(cache: seq<Prompt>, name: string): (p: nat)
    ensures p <= |cache|
    ensures p < |cache| ==> cache[p].name == name
    ensures forall i | 0 <= i < p :: cache[i].name != name
  {
    if cache == [] || cache[0].name == name then 0 else 1 + Find(cache[1..], name)
  }

  /** This prompt is new, or its content differs from the cached one. */
  predicate Changed(cache: seq<Prompt>, p: Prompt) {
    var i := Find(cache, p.name);
    i == |cache| || cache[i].content != p.content
  }

  function Noted(cache: seq<Prompt>, p: Prompt): seq<Prompt> {
    var i := Find(cache, p.name);
    if i < |cache| then cache[i := p]
    else if |cache| < MAX_CACHED then cache + [p]
    else cache
  }

  /** The cache and the callbacks after the comparison loop. */
  function NotedAll(cache: seq<Prompt>, prompts: seq<Prompt>): seq<Prompt>
    decreases |prompts|
  {
    if prompts == [] then cache else NotedAll(Noted(cache, prompts[0]), prompts[1..])
  }

  function Events(cache: seq<Prompt>, prompts: seq<Prompt>): seq<Prompt>
    decreases |prompts|
  {
    if prompts == [] then []
    else (if Changed(cache, prompts[0]) then [prompts[0]] else []) + Events(Noted(cache, prompts[0]), prompts[1..])
  }

  /** What a poll sees of the rows: the first 64. */
  function Collected(rows: seq<Prompt>): (prompts: seq<Prompt>)
    ensures prompts <= rows && |prompts| == if |rows| < 64 then |rows| else 64
  {
    if |rows| <= MAX_CACHED then rows else rows[..MAX_CACHED]
  }

  // ---- What the cache knows ----

  predicate CacheOk(cache: seq<Prompt>) { Distinct(cache) && |cache| <= MAX_CACHED }

  lemma {:induction false} LearnedLookup(m: map<string, string>, s: seq<Prompt>, name: string)
    requires Distinct(s)
    ensures var p := Find(s, name);
            if p < |s| then name in Learned(m, s) && Learned(m, s)[name] == s[p].content
            else (name in Learned(m, s) <==> name in m) && (name in m ==> Learned(m, s)[name] == m[name])
    decreases |s|
  {
    if s != [] {
      LearnedLookup(m[s[0].name := s[0].content], s[1..], name);
    }
  }

  lemma {:induction false} KnownLookup(s: seq<Prompt>, name: string)
    requires Distinct(s)
    ensures name in Known(s) <==> Find(s, name) < |s|
    ensures name in Known(s) ==> Known(s)[name] == s[Find(s, name)].content
  {
    LearnedLookup(map[], s, name);
  }

  lemma {:induction false} FindUnique(s: seq<Prompt>, i: nat)
    requires Distinct(s) && i < |s|
    ensures Find(s, s[i].name) == i
  {
  }

  lemma {:induction false} InNames(s: seq<Prompt>, name: string)
    ensures name in Names(s) <==> Find(s, name) < |s|
  {
    if Find(s, name) < |s| {
      assert s[Find(s, name)] in s;
    }
  }

  /** Noting a prompt makes the cache know it, as long as there is room. */
  lemma {:induction false} NotedKnows(cache: seq<Prompt>, p: Prompt)
    requires CacheOk(cache) && (|cache| < MAX_CACHED || p.name in Names(cache))
    ensures CacheOk(Noted(cache, p))
    ensures Known(Noted(cache, p)) == Known(cache)[p.name := p.content]
    ensures Names(Noted(cache, p)) == Names(cache) + {p.name}
    ensures !Changed(cache, p) ==> Noted(cache, p) == cache
  {
    hide Known;
    InNames(cache, p.name);
    var next := Noted(cache, p);
    assert Distinct(next);
    var i := Find(cache, p.name);
    if i < |cache| {
      FindUnique(next, i);
    } else {
      FindUnique(next, |cache|);
    }
    forall name
      ensures name in Known(next) <==> name in Known(cache) || name == p.name
      ensures name in Known(next) ==> Known(next)[name] == Known(cache)[p.name := p.content][name]
      ensures name in Names(next) <==> name in Names(cache) || name == p.name
    {
      KnownLookup(cache, name);
      KnownLookup(next, name);
      InNames(cache, name);
      InNames(next, name);
      if name != p.name {
        OtherNames(cache, p, name);
      }
    }
  }

  lemma {:induction false} OtherNames(cache: seq<Prompt>, p: Prompt, name: string)
    requires Distinct(cache) && Distinct(Noted(cache, p)) && name != p.name
    ensures var next := Noted(cache, p);
            && (Find(next, name) < |next| <==> Find(cache, name) < |cache|)
            && (Find(cache, name) < |cache| ==> next[Find(next, name)] == cache[Find(cache, name)])
  {
    var next, i, j := Noted(cache, p), Find(cache, name), Find(Noted(cache, p), name);
    if i < |cache| {
      assert next[i] == cache[i];
      FindUnique(next, i);
    }
    if j < |next| {
      assert j < |cache| && next[j] == cache[j];
      FindUnique(cache, j);
    }
  }

  lemma {:induction false} NamesCount(s: seq<Prompt>)
    requires Distinct(s)
    ensures |Names(s)| == |s|
    decreases |s|
  {
    if s != [] {
      var init, last := s[..|s| - 1], s[|s| - 1];
      NamesCount(init);
      assert Names(s) == Names(init) + {last.name} by {
        assert s == init + [last];
      }
    }
  }

  /** Within the capacity, one poll teaches the cache the snapshot and its callbacks tell a reader the same. */
  lemma {:induction false} PollKnows(cache: seq<Prompt>, prompts: seq<Prompt>)
    requires CacheOk(cache) && |Names(cache) + Names(prompts)| <= MAX_CACHED
    ensures CacheOk(NotedAll(cache, prompts))
    ensures Names(NotedAll(cache, prompts)) == Names(cache) + Names(prompts)
    ensures Known(NotedAll(cache, prompts)) == Learned(Known(cache), prompts)
    ensures Known(NotedAll(cache, prompts)) == Learned(Known(cache), Events(cache, prompts))
    decreases |prompts|
  {
    hide Known, Noted, Changed, Names, Distinct;
    if prompts == [] {
      assert Names(prompts) == {} by { NoNames(); }
    } else {
      var p, rest := prompts[0], prompts[1..];
      var next := Noted(cache, p);
      NamesCount(cache);
      FirstName(prompts);
      Room(Names(cache), p.name, Names(cache) + Names(prompts));
      NotedKnows(cache, p);
      assert Names(next) + Names(rest) == Names(cache) + Names(prompts);
      PollKnows(next, rest);
      EventsFold(cache, prompts);
    }
  }

  lemma {:induction false} NoNames()
    ensures Names([]) == {}
  {
  }

  lemma {:induction false} FirstName(s: seq<Prompt>)
    requires s != []
    ensures Names(s) == {s[0].name} + Names(s[1..])
  {
    assert s == [s[0]] + s[1..];
  }

  /** A reader who misses the silent prompts learns the same. */
  lemma {:induction false} EventsFold(cache: seq<Prompt>, prompts: seq<Prompt>)
    requires prompts != []
    requires var next := Noted(cache, prompts[0]);
             && Known(next) == Known(cache)[prompts[0].name := prompts[0].content]
             && (!Changed(cache, prompts[0]) ==> next == cache)
    ensures Learned(Known(cache), Events(cache, prompts)) ==
            Learned(Known(Noted(cache, prompts[0])), Events(Noted(cache, prompts[0]), prompts[1..]))
  {
    hide Known, Noted, Changed;
    var more := Events(Noted(cache, prompts[0]), prompts[1..]);
    if Changed(cache, prompts[0]) {
      assert ([prompts[0]] + more)[1..] == more;
    } else {
      assert [] + more == more;
    }
  }

  lemma {:induction false} Room(known: set<string>, name: string, all: set<string>)
    requires known <= all && name in all && |all| <= MAX_CACHED
    ensures |known| < MAX_CACHED || name in known
  {
    if name !in known {
      Subset(known + {name}, all);
    }
  }

  lemma {:induction false} Subset(a: set<string>, b: set<string>)
    requires a <= b
    ensures |a| <= |b|
  {
    assert b == a + (b - a);
  }

  lemma {:induction false} KnownIsSilent(cache: seq<Prompt>, p: Prompt)
    requires Distinct(cache) && p.name in Known(cache) && Known(cache)[p.name] == p.content
    ensures !Changed(cache, p) && Noted(cache, p) == cache
  {
    KnownLookup(cache, p.name);
    assert cache[Find(cache, p.name)] == p;
  }

  /** A poll that finds only what the cache knows makes no callback and changes nothing. */
  lemma {:induction false} KnownPollIsSilent(cache: seq<Prompt>, prompts: seq<Prompt>)
    requires CacheOk(cache)
    requires forall p | p in prompts :: p.name in Known(cache) && Known(cache)[p.name] == p.content
    ensures Events(cache, prompts) == [] && NotedAll(cache, prompts) == cache
    decreases |prompts|
  {
    if prompts != [] {
      assert prompts[0] in prompts;
      KnownIsSilent(cache, prompts[0]);
      hide Known, Noted, Changed;
      KnownPollIsSilent(cache, prompts[1..]);
    }
  }

  // ---- Beyond the capacity ----

  /** Noting a prompt loses no name, learns at most one, and leaves one out only when the cache is full. */
  lemma {:induction false} NotedNames(cache: seq<Prompt>, p: Prompt)
    requires CacheOk(cache)
    ensures CacheOk(Noted(cache, p))
    ensures Names(cache) <= Names(Noted(cache, p)) <= Names(cache) + {p.name}
    ensures p.name !in Names(Noted(cache, p)) ==> |cache| == MAX_CACHED
    ensures |cache| == MAX_CACHED ==> Names(Noted(cache, p)) == Names(cache) && |Noted(cache, p)| == MAX_CACHED
  {
    InNames(cache, p.name);
    if |cache| < MAX_CACHED || p.name in Names(cache) {
      NotedKnows(cache, p);
      hide Known, Names, Distinct;
    }
  }

  /** A whole poll: nothing is forgotten, and either everything is learnt or the cache ends up full. */
  lemma {:induction false} NotedAllNames(cache: seq<Prompt>, prompts: seq<Prompt>)
    requires CacheOk(cache)
    ensures var after := NotedAll(cache, prompts);
            && CacheOk(after) && Names(cache) <= Names(after) <= Names(cache) + Names(prompts)
            && (|after| < MAX_CACHED ==> Names(after) == Names(cache) + Names(prompts))
            && (|cache| == MAX_CACHED ==> Names(after) == Names(cache) && |after| == MAX_CACHED)
    decreases |prompts|
  {
    hide Noted, Names, Distinct;
    if prompts == [] {
      NoNames();
    } else {
      NotedNames(cache, prompts[0]);
      NotedAllNames(Noted(cache, prompts[0]), prompts[1..]);
      FirstName(prompts);
    }
  }

  /** With the cache full, every poll reports every prompt whose name the cache does not hold. */
  lemma {:induction false} FullCacheRepeats(cache: seq<Prompt>, prompts: seq<Prompt>, p: Prompt)
    requires CacheOk(cache) && |cache| == MAX_CACHED && p in prompts && p.name !in Names(cache)
    ensures p in Events(cache, prompts)
    decreases |prompts|
  {
    NotedNames(cache, prompts[0]);
    InNames(cache, p.name);
    hide Noted, Names, Distinct;
    if prompts[0] != p {
      assert p in prompts[1..];
      FullCacheRepeats(Noted(cache, prompts[0]), prompts[1..], p);
    }
  }

  /** Polling an unchanged database reports nothing exactly when cache and snapshot together fit the capacity. */
  lemma {:induction false} UnchangedPollIsSilentIff(cache: seq<Prompt>, prompts: seq<Prompt>)
    requires CacheOk(cache) && Distinct(prompts)
    ensures var after := NotedAll(cache, prompts);
            Events(after, prompts) == [] <==> |Names(cache) + Names(prompts)| <= MAX_CACHED
  {
    if |Names(cache) + Names(prompts)| <= MAX_CACHED {
      UnchangedPollIsSilent(cache, prompts);
    } else {
      var after, all := NotedAll(cache, prompts), Names(cache) + Names(prompts);
      NotedAllNames(cache, prompts);
      NamesCount(after);
      hide NotedAll, Events;
      assert all != Names(after);
      var name :| name in all && name !in Names(after);
      var p :| p in prompts && p.name == name;
      FullCacheRepeats(after, prompts, p);
    }
  }

  /** Polling the same database again, within the capacity, reports nothing and changes nothing. */
  lemma {:induction false} UnchangedPollIsSilent(cache: seq<Prompt>, prompts: seq<Prompt>)
    requires CacheOk(cache) && Distinct(prompts) && |Names(cache) + Names(prompts)| <= MAX_CACHED
    ensures Events(NotedAll(cache, prompts), prompts) == []
    ensures NotedAll(NotedAll(cache, prompts), prompts) == NotedAll(cache, prompts)
  {
    hide Known;
    PollKnows(cache, prompts);
    forall p | p in prompts
      ensures p.name in Known(NotedAll(cache, prompts)) && Known(NotedAll(cache, prompts))[p.name] == p.content
    {
      LearnedLookup(Known(cache), prompts, p.name);
      var i :| 0 <= i < |prompts| && prompts[i] == p;
      FindUnique(prompts, i);
    }
    KnownPollIsSilent(NotedAll(cache, prompts), prompts);
  }

  // ---- Runs of polls ----

  /** A poll of the database: it fails, or gives a snapshot. */
  type Fetch = Option<seq<Prompt>>

  function CacheAfter(cache: seq<Prompt>, polls: seq<Fetch>): seq<Prompt>
    decreases |polls|
  {
    if polls == [] then cache
    else CacheAfter(if polls[0].None? then cache else NotedAll(cache, Collected(polls[0].value)), polls[1..])
  }

  function AllEvents(cache: seq<Prompt>, polls: seq<Fetch>): seq<Prompt>
    decreases |polls|
  {
    if polls == [] then []
    else if polls[0].None? then AllEvents(cache, polls[1..])
    else
      var prompts := Collected(polls[0].value);
      Events(cache, prompts) + AllEvents(NotedAll(cache, prompts), polls[1..])
  }

  /** Everything the polls that worked have shown, in order. */
  function AllRows(polls: seq<Fetch>): seq<Prompt>
    decreases |polls|
  {
    if polls == [] then []
    else (if polls[0].None? then [] else Collected(polls[0].value)) + AllRows(polls[1..])
  }

  /** A full cache keeps its names over every run of polls, failed ones included. */
  lemma {:induction false} FullCacheStays(cache: seq<Prompt>, polls: seq<Fetch>)
    requires CacheOk(cache) && |cache| == MAX_CACHED
    ensures var after := CacheAfter(cache, polls);
            CacheOk(after) && |after| == MAX_CACHED && Names(after) == Names(cache)
    decreases |polls|
  {
    hide Names, NotedAll, Collected, Distinct;
    if polls != [] {
      if polls[0].None? {
        FullCacheStays(cache, polls[1..]);
      } else {
        NotedAllNames(cache, Collected(polls[0].value));
        FullCacheStays(NotedAll(cache, Collected(polls[0].value)), polls[1..]);
      }
    }
  }

  /** So a prompt it does not hold is reported by every later poll that finds it, after any run of polls. */
  lemma {:induction false} FullCacheRepeatsForever(cache: seq<Prompt>, polls: seq<Fetch>, rows: seq<Prompt>, p: Prompt)
    requires CacheOk(cache) && |cache| == MAX_CACHED && p.name !in Names(cache) && p in Collected(rows)
    ensures p in Events(CacheAfter(cache, polls), Collected(rows))
  {
    FullCacheStays(cache, polls);
    hide Names, Collected, CacheAfter, Distinct;
    FullCacheRepeats(CacheAfter(cache, polls), Collected(rows), p);
  }

  lemma {:induction false} LearnedAppend(m: map<string, string>, a: seq<Prompt>, b: seq<Prompt>)
    ensures Learned(m, a + b) == Learned(Learned(m, a), b)
    decreases |a|
  {
    if a == [] {
      assert a + b == b;
    } else {
      LearnedAppend(m[a[0].name := a[0].content], a[1..], b);
      assert (a + b)[1..] == a[1..] + b;
    }
  }

  lemma {:induction false} LearnedKeys(m: map<string, string>, s: seq<Prompt>)
    ensures Learned(m, s).Keys == m.Keys + Names(s)
    decreases |s|
  {
    hide Names;
    if s == [] {
      NoNames();
    } else {
      LearnedKeys(m[s[0].name := s[0].content], s[1..]);
      FirstName(s);
    }
  }

  /** The reader has every entry of the cache as the cache has it, and may know more. */
  predicate Agrees(reader: map<string, string>, cache: seq<Prompt>) {
    forall i | 0 <= i < |cache| :: cache[i].name in reader && reader[cache[i].name] == cache[i].content
  }

  lemma {:induction false} KnownAgrees(cache: seq<Prompt>)
    requires Distinct(cache)
    ensures Agrees(Known(cache), cache)
  {
    hide Known;
    forall i | 0 <= i < |cache|
      ensures cache[i].name in Known(cache) && Known(cache)[cache[i].name] == cache[i].content
    {
      FindUnique(cache, i);
      KnownLookup(cache, cache[i].name);
    }
  }

  /** Telling the reader of a prompt that made no callback would tell nothing new. */
  lemma {:induction false} NotedAgrees(reader: map<string, string>, cache: seq<Prompt>, p: Prompt)
    requires CacheOk(cache) && Agrees(reader, cache)
    ensures CacheOk(Noted(cache, p)) && Agrees(reader[p.name := p.content], Noted(cache, p))
    ensures !Changed(cache, p) ==> reader[p.name := p.content] == reader
  {
    NotedNames(cache, p);
    var i := Find(cache, p.name);
    if i < |cache| {
      assert forall k | 0 <= k < |cache| && k != i :: cache[k].name != p.name;
      assert !Changed(cache, p) ==> reader[p.name] == p.content;
    }
  }

  /** The callbacks of one poll teach a reader who agrees with the cache the whole snapshot. */
  lemma {:induction false} PollTeaches(reader: map<string, string>, cache: seq<Prompt>, prompts: seq<Prompt>)
    requires CacheOk(cache) && Agrees(reader, cache)
    ensures Learned(reader, Events(cache, prompts)) == Learned(reader, prompts)
    ensures CacheOk(NotedAll(cache, prompts)) && Agrees(Learned(reader, prompts), NotedAll(cache, prompts))
    decreases |prompts|
  {
    hide Noted, Changed, Agrees, CacheOk;
    if prompts != [] {
      var p, next := prompts[0], Noted(cache, prompts[0]);
      NotedAgrees(reader, cache, p);
      PollTeaches(reader[p.name := p.content], next, prompts[1..]);
      var more := Events(next, prompts[1..]);
      assert ([p] + more)[1..] == more && [] + more == more;
    }
  }

  /**
   Over every run of polls, failed ones and full caches included: a reader told of the callbacks learns
   everything the database has shown, and agrees with the cache on all that is cached.
   */
  lemma {:induction false} RunTeaches(reader: map<string, string>, cache: seq<Prompt>, polls: seq<Fetch>)
    requires CacheOk(cache) && Agrees(reader, cache)
    ensures Learned(reader, AllEvents(cache, polls)) == Learned(reader, AllRows(polls))
    ensures CacheOk(CacheAfter(cache, polls)) && Agrees(Learned(reader, AllRows(polls)), CacheAfter(cache, polls))
    decreases |polls|
  {
    hide Agrees, CacheOk, Collected, NotedAll, Events, Learned;
    if polls == [] {
      LearnedNone(reader);
    } else if polls[0].None? {
      RunTeaches(reader, cache, polls[1..]);
      assert AllRows(polls) == AllRows(polls[1..]);
    } else {
      var prompts := Collected(polls[0].value);
      var next, told := NotedAll(cache, prompts), Learned(reader, prompts);
      PollTeaches(reader, cache, prompts);
      RunTeaches(told, next, polls[1..]);
      LearnedAppend(reader, Events(cache, prompts), AllEvents(next, polls[1..]));
      LearnedAppend(reader, prompts, AllRows(polls[1..]));
    }
  }

  lemma {:induction false} LearnedNone(m: map<string, string>)
    ensures Learned(m, []) == m
  {
  }

  /** The names in the cache after a run. */
  lemma {:induction false} RunNames(cache: seq<Prompt>, polls: seq<Fetch>)
    requires CacheOk(cache)
    ensures var after, all := CacheAfter(cache, polls), Names(cache) + Names(AllRows(polls));
            && CacheOk(after) && Names(cache) <= Names(after) <= all
            && (|after| < MAX_CACHED ==> Names(after) == all)
            && (|cache| == MAX_CACHED ==> |after| == MAX_CACHED)
    decreases |polls|
  {
    hide Names, NotedAll, Collected, Distinct;
    if polls == [] {
      NoNames();
    } else if polls[0].None? {
      RunNames(cache, polls[1..]);
      assert AllRows(polls) == AllRows(polls[1..]);
    } else {
      var prompts := Collected(polls[0].value);
      NotedAllNames(cache, prompts);
      RunNames(NotedAll(cache, prompts), polls[1..]);
      NamesAppend(prompts, AllRows(polls[1..]));
    }
  }

  lemma {:induction false} NamesAppend(a: seq<Prompt>, b: seq<Prompt>)
    ensures Names(a + b) == Names(a) + Names(b)
  {
  }

  lemma {:induction false} SameSize(a: set<string>, b: set<string>)
    requires a <= b && |a| >= |b|
    ensures a == b
  {
    assert b == a + (b - a);
  }

  lemma {:induction false} KnownKeys(s: seq<Prompt>)
    requires Distinct(s)
    ensures Known(s).Keys == Names(s)
  {
    LearnedKeys(map[], s);
  }

  lemma {:induction false} AgreesOnKeys(reader: map<string, string>, cache: seq<Prompt>)
    requires Distinct(cache) && Agrees(reader, cache)
    ensures forall name | name in Known(cache) :: name in reader && reader[name] == Known(cache)[name]
    ensures Known(cache) == reader <==> Names(cache) == reader.Keys
  {
    KnownKeys(cache);
    hide Known, Names;
    forall name | name in Known(cache)
      ensures name in reader && reader[name] == Known(cache)[name]
    {
      KnownLookup(cache, name);
    }
  }

  /** After any run the reader knows exactly what the cache knows if and only if all names ever shown fit it. */
  lemma {:induction false} RunKnowsIff(cache: seq<Prompt>, polls: seq<Fetch>)
    requires CacheOk(cache)
    ensures Known(CacheAfter(cache, polls)) == Learned(Known(cache), AllEvents(cache, polls)) <==>
              |Names(cache) + Names(AllRows(polls))| <= MAX_CACHED
  {
    var after, all := CacheAfter(cache, polls), Names(cache) + Names(AllRows(polls));
    var reader := Learned(Known(cache), AllRows(polls));
    KnownAgrees(cache);
    RunTeaches(Known(cache), cache, polls);
    LearnedKeys(Known(cache), AllRows(polls));
    KnownKeys(cache);
    AgreesOnKeys(reader, after);
    RunNames(cache, polls);
    NamesCount(after);
    hide Names, Known, Learned, CacheAfter, Agrees, Distinct;
    if |all| <= MAX_CACHED && |after| == MAX_CACHED {
      SameSize(Names(after), all);
    }
  }

  lemma {:induction false} RowsAppend(polls: seq<Fetch>, latest: seq<Prompt>)
    ensures AllRows(polls + [Some(latest)]) == AllRows(polls) + Collected(latest)
    decreases |polls|
  {
    hide Collected;
    if polls == [] {
      assert polls + [Some(latest)] == [Some(latest)];
      assert [Some(latest)][1..] == [];
      assert AllRows([]) == [];
    } else {
      RowsAppend(polls[1..], latest);
      assert (polls + [Some(latest)])[1..] == polls[1..] + [Some(latest)];
    }
  }

  /**
   Starting from the first snapshot and applying every callback since, a reader knows the content of every
   prompt the latest poll collected, and nothing else exactly when no name it was shown is missing there.
   */
  lemma {:induction false} CallbacksReproduceSnapshot(first: seq<Prompt>, polls: seq<Fetch>, latest: seq<Prompt>)
    requires CacheOk(first) && Distinct(latest)
    ensures var reader, seen := Learned(Known(first), AllEvents(first, polls + [Some(latest)])), Collected(latest);
            && (forall name | name in Known(seen) :: name in reader && reader[name] == Known(seen)[name])
            && (reader == Known(seen) <==> Names(first) + Names(AllRows(polls)) <= Names(seen))
  {
    var seen, before := Collected(latest), Learned(Known(first), AllRows(polls));
    KnownAgrees(first);
    RunTeaches(Known(first), first, polls + [Some(latest)]);
    RowsAppend(polls, latest);
    LearnedAppend(Known(first), AllRows(polls), seen);
    LearnedKeys(Known(first), AllRows(polls));
    KnownKeys(first);
    LearnedKeys(before, seen);
    LearnedAgrees(before, seen);
    AgreesOnKeys(Learned(before, seen), seen);
    hide Names, Known, Learned, AllEvents, AllRows, Agrees, Distinct;
  }

  /** A latest snapshot of at most 64 prompts is known in full, with nothing said of how polls collect. */
  lemma {:induction false} SmallSnapshotIsReproduced(first: seq<Prompt>, polls: seq<Fetch>, latest: seq<Prompt>)
    requires CacheOk(first) && Distinct(latest) && |latest| <= 64
    ensures var reader := Learned(Known(first), AllEvents(first, polls + [Some(latest)]));
            && (forall p | p in latest :: p.name in reader && reader[p.name] == p.content)
            && ((forall name | name in reader :: name in Names(latest)) <==>
                  Names(first) + Names(AllRows(polls)) <= Names(latest))
  {
    CallbacksReproduceSnapshot(first, polls, latest);
    KnownKeys(latest);
    KnownAgrees(latest);
    hide AllEvents, AllRows, Learned, CacheOk, Distinct, Names, Known;
    var reader := Learned(Known(first), AllEvents(first, polls + [Some(latest)]));
    forall p | p in latest
      ensures p.name in reader && reader[p.name] == p.content
    {
      var i :| 0 <= i < |latest| && latest[i] == p;
      assert latest[i].name in Known(latest);
    }
    if forall name | name in reader :: name in Names(latest) {
      assert reader == Known(latest);
    }
  }

  /** Whoever is told of a snapshot agrees with it. */
  lemma {:induction false} LearnedAgrees(m: map<string, string>, s: seq<Prompt>)
    requires Distinct(s)
    ensures Agrees(Learned(m, s), s)
  {
    hide Learned;
    forall i | 0 <= i < |s|
      ensures s[i].name in Learned(m, s) && Learned(m, s)[s[i].name] == s[i].content
    {
      FindUnique(s, i);
      LearnedLookup(m, s, s[i].name);
    }
  }

  // ---- The fetcher ----

  lemma {:induction false} CompareNone(cache: seq<Prompt>)
    ensures NotedAll(cache, []) == cache && Events(cache, []) == []
  {
  }

  lemma {:induction false} CompareStep(cache: seq<Prompt>, prompts: seq<Prompt>, i: nat)
    requires i < |prompts|
    ensures var next := Noted(cache, prompts[i]);
            && NotedAll(cache, prompts[i..]) == NotedAll(next, prompts[i + 1..])
            && Events(cache, prompts[i..]) ==
               (if Changed(cache, prompts[i]) then [prompts[i]] else []) + Events(next, prompts[i + 1..])
  {
    hide Noted, Changed;
    assert prompts[i..][1..] == prompts[i + 1..];
  }

  class Fetcher {
    const cache: array<Prompt>
    var cacheCount: nat
    var initialized: bool
    var lastPoll: int
    const intervalSecs: int
    const hasCallback: bool
    /** The arguments of every callback made so far. */
    ghost var told: seq<Prompt>

    ghost predicate Valid()
      reads this
    {
      cache.Length == MAX_CACHED && cacheCount <= MAX_CACHED && (!initialized ==> cacheCount == 0)
    }

    ghost function View(): seq<Prompt>
      reads this, cache
      requires Valid()
    {
      cache[..cacheCount]
    }

    constructor (interval: int, callback: bool)
      requires interval > 0
      ensures Valid() && fresh(cache) && !initialized && View() == [] && told == []
    {
      cache := new Prompt[MAX_CACHED](_ => Prompt("", ""));
      cacheCount, initialized, lastPoll := 0, false, 0;
      intervalSecs, hasCallback, told := interval, callback, [];
    }

    /** `collect_cb` for each row: rows beyond the capacity are dropped. */
    static method Collect(rows: seq<Prompt>) returns (prompts: seq<Prompt>)
      ensures prompts == Collected(rows)
      ensures prompts <= rows && |prompts| == if |rows| < 64 then |rows| else 64
    {
      prompts := [];
      for i := 0 to |rows|
        invariant prompts == Collected(rows[..i])
      {
        assert rows[..i + 1] == rows[..i] + [rows[i]];
        if |prompts| < MAX_CACHED {
          prompts := prompts + [rows[i]];
        }
      }
      assert rows[..|rows|] == rows;
    }

    /** `prompt_fetcher_poll`. */
    method Poll(fetch: Fetch, now: int) returns (rc: int)
      requires Valid()
      modifies this, cache
      ensures Valid()
      ensures fetch.None? ==>
                rc == -1 && View() == old(View()) && told == old(told) &&
                initialized == old(initialized) && lastPoll == old(lastPoll)
      ensures fetch.Some? ==> initialized && lastPoll == now
      ensures fetch.Some? && !old(initialized) ==> rc == 0 && View() == Collected(fetch.value) && told == old(told)
      ensures fetch.Some? && old(initialized) ==>
                var events := Events(old(View()), Collected(fetch.value));
                && rc == |events| && View() == NotedAll(old(View()), Collected(fetch.value))
                && told == old(told) + if hasCallback then events else []
    {
      if fetch.None? {
        return -1;
      }
      var prompts := Collect(fetch.value);
      if !initialized {
        Fill(prompts);
        cacheCount := |prompts|;
        initialized := true;
        lastPoll := now;
        return 0;
      }
      rc := Compare(prompts);
      lastPoll := now;
    }

    method Fill(prompts: seq<Prompt>)
      requires Valid() && |prompts| <= MAX_CACHED
      modifies cache
      ensures cache[..|prompts|] == prompts
    {
      for i := 0 to |prompts|
        invariant cache[..i] == prompts[..i]
      {
        cache[i] := prompts[i];
      }
    }

    /** The loop that compares each prompt with the cache. */
    method Compare(prompts: seq<Prompt>) returns (changed: nat)
      requires Valid() && initialized
      modifies `cacheCount, `told, cache
      ensures Valid()
      ensures changed == |Events(old(View()), prompts)| && View() == NotedAll(old(View()), prompts)
      ensures told == old(told) + if hasCallback then Events(old(View()), prompts) else []
    {
      hide Noted, Changed, Events, NotedAll;
      changed := 0;
      ghost var made := [];
      for i := 0 to |prompts|
        invariant Valid()
        invariant NotedAll(View(), prompts[i..]) == NotedAll(old(View()), prompts)
        invariant made + Events(View(), prompts[i..]) == Events(old(View()), prompts)
        invariant changed == |made| && told == old(told) + if hasCallback then made else []
      {
        CompareStep(View(), prompts, i);
        var isNew := CompareOne(prompts[i]);
        if isNew {
          if hasCallback {
            told := told + [prompts[i]];
          }
          changed := changed + 1;
          made := made + [prompts[i]];
        }
      }
      assert prompts[|prompts|..] == [];
      CompareNone(View());
    }

    /** The inner search and the update of one cache entry. */
    method CompareOne(p: Prompt) returns (isNew: bool)
      requires Valid() && initialized
      modifies `cacheCount, cache
      ensures Valid()
      ensures isNew == Changed(old(View()), p) && View() == Noted(old(View()), p)
    {
      var found := 0;
      while found < cacheCount && cache[found].name != p.name
        invariant found <= cacheCount
        invariant Find(View(), p.name) == found + Find(View()[found..], p.name)
      {
        found := found + 1;
      }
      if found == cacheCount {
        if cacheCount < MAX_CACHED {
          cache[cacheCount] := p;
          cacheCount := cacheCount + 1;
        }
        return true;
      }
      if cache[found].content != p.content {
        cache[found] := cache[found].(content := p.content);
        return true;
      }
      assert View()[found] == p;
      return false;
    }

    /** `prompt_fetcher_tick`: poll when the interval has passed, or nothing was fetched yet. */
    method Tick(fetch: Fetch, now: int) returns (rc: int)
      requires Valid()
      modifies this, cache
      ensures Valid()
      ensures old(initialized) && now - old(lastPoll) < intervalSecs ==>
                rc == 0 && View() == old(View()) && told == old(told) && lastPoll == old(lastPoll)
      ensures var due := !old(initialized) || now - old(lastPoll) >= intervalSecs;
              var prompts := if fetch.Some? then Collected(fetch.value) else [];
              var events := if old(initialized) then Events(old(View()), prompts) else [];
              && (due && fetch.None? ==>
                    rc == -1 && View() == old(View()) && told == old(told) && lastPoll == old(lastPoll))
              && (due && fetch.Some? ==>
                    && initialized && lastPoll == now && rc == |events|
                    && View() == (if old(initialized) then NotedAll(old(View()), prompts) else prompts)
                    && told == old(told) + if hasCallback then events else [])
    {
      if !initialized || now - lastPoll >= intervalSecs {
        rc := Poll(fetch, now);
      } else {
        rc := 0;
      }
    }
  }
}
