/** Importing the sorted credential files: one result per file, a running summary that every event repeats,
    and a priority for every channel that is created. */
module ImportRun {
  import opened Wrappers

  datatype Provider = Codex | Antigravity

  datatype Channel = Channel(provider: Provider, priority: int)

  /** What detecting the provider of a file comes to. */
  datatype Detection = Undecodable | UnknownType | Detected(provider: Provider)

  /** What validating the credential and creating its channel comes to. */
  datatype Outcome = Unusable | ImportError | NewChannel | ExistingChannel

  /** A file with everything the outside world would answer about it. */
  datatype File = File(name: string, broken: bool, detection: Detection, outcome: Outcome)

  datatype Status = Created | Skipped | Failed

  datatype Result = Result(name: string, status: Status)

  datatype Kind = Processing | Progress

  datatype Event = Event(kind: Kind, processed: nat, total: nat, created: nat, skipped: nat, failed: nat, name: string)

  // ----- priorities -----

  /** The highest priority of the provider's channels, and at least zero. */
  function Highest(channels: seq<Channel>, p: Provider): (m: int)
    ensures m >= 0 && forall c :: c in channels && c.provider == p ==> c.priority <= m
    ensures m == 0 || exists c :: c in channels && c.provider == p && c.priority == m
  {
    if channels == [] then 0
    else
      var n := |channels| - 1;
      var c, m := channels[n], Highest(channels[..n], p);
      assert forall x :: x in channels <==> x in channels[..n] || x == c;
      if c.provider == p && c.priority > m then c.priority else m
  }

  /** The priority of the first channel that is created for a provider. */
  function Base(existing: seq<Channel>, p: Provider, increment: nat): int {
    if increment > 0 then Highest(existing, p) + increment else 0
  }

  /** The part of prepareOAuthCredentialImport that seeds the priorities. */
  method SeedPriorities(existing: seq<Channel>, increment: nat) returns (next: map<Provider, int>)
    ensures Codex in next && next[Codex] == if increment > 0 then Highest(existing, Codex) + increment else 0
    ensures Antigravity in next && next[Antigravity] == if increment > 0 then Highest(existing, Antigravity) + increment else 0
  {
    next := map[Codex := 0, Antigravity := 0];
    if increment > 0 {
      for i := 0 to |existing|
        invariant Codex in next && next[Codex] == Highest(existing[..i], Codex)
        invariant Antigravity in next && next[Antigravity] == Highest(existing[..i], Antigravity)
      {
        assert existing[..i + 1][..i] == existing[..i];
        var c := existing[i];
        assert c.provider == Codex || c.provider == Antigravity;
        if c.priority > next[c.provider] {
          next := next[c.provider := c.priority];
        }
      }
      assert existing[..|existing|] == existing;
      next := next[Codex := next[Codex] + increment][Antigravity := next[Antigravity] + increment];
    }
  }

  // ----- one file -----

  /** The provider a file is imported for, when it gets that far; `forced` overrides the detection. */
  function ProviderOf(f: File, forced: Option<Provider>): Option<Provider> {
    if f.broken then None
    else if forced.Some? then forced
    else if f.detection.Detected? then Some(f.detection.provider)
    else None
  }

  function StatusOf(f: File, forced: Option<Provider>): Status {
    if f.broken then Failed
    else if forced.None? && f.detection.Undecodable? then Failed
    else if forced.None? && f.detection.UnknownType? then Skipped
    else
      match f.outcome
      case Unusable => Skipped
      case ImportError => Failed
      case NewChannel => Created
      case ExistingChannel => Skipped
  }

  predicate Creates(f: File, forced: Option<Provider>, p: Provider) {
    StatusOf(f, forced) == Created && ProviderOf(f, forced) == Some(p)
  }

  /** What becomes of a file.  It reaches the import if it could be read and its provider is prescribed or recognised; then
      its outcome decides.  Before that, a broken or undecodable file fails and one of an unknown type is skipped. */
  lemma StatusReads(f: File, forced: Option<Provider>)
    ensures var reaches := !f.broken && (forced.Some? || f.detection.Detected?);
            && (StatusOf(f, forced).Created? <==> reaches && f.outcome.NewChannel?)
            && (StatusOf(f, forced).Failed? <==>
                  f.broken || (forced.None? && f.detection.Undecodable?) || (reaches && f.outcome.ImportError?))
            && (StatusOf(f, forced).Skipped? <==>
                  || (!f.broken && forced.None? && f.detection.UnknownType?)
                  || (reaches && (f.outcome.Unusable? || f.outcome.ExistingChannel?)))
            && (reaches ==> ProviderOf(f, forced) == Some(if forced.Some? then forced.value else f.detection.provider))
  {
  }

  /** The places of the first `n` files that have a status. */
  function Places(files: seq<File>, forced: Option<Provider>, s: Status, n: nat): set<int>
    requires n <= |files|
  {
    set i | 0 <= i < n && StatusOf(files[i], forced) == s
  }

  /** How many of the first `n` files have a status. */
  function Count(files: seq<File>, forced: Option<Provider>, s: Status, n: nat): nat
    requires n <= |files|
  {
    if n == 0 then 0 else Count(files, forced, s, n - 1) + if StatusOf(files[n - 1], forced) == s then 1 else 0
  }

  lemma {:induction false} CountIsSize(files: seq<File>, forced: Option<Provider>, s: Status, n: nat)
    requires n <= |files|
    ensures Count(files, forced, s, n) == |Places(files, forced, s, n)|
  {
    hide StatusOf;
    if n > 0 {
      CountIsSize(files, forced, s, n - 1);
      OneMorePlace(files, forced, s, n - 1);
      hide Places;
    }
  }

  lemma OneMorePlace(files: seq<File>, forced: Option<Provider>, s: Status, n: nat)
    requires n < |files|
    ensures var before := Places(files, forced, s, n);
            n !in before && Places(files, forced, s, n + 1) == if StatusOf(files[n], forced) == s then before + {n} else before
  {
  }

  /** How many of the first `n` files create a channel of the provider. */
  function CreatedFor(files: seq<File>, forced: Option<Provider>, p: Provider, n: nat): nat
    requires n <= |files|
  {
    if n == 0 then 0 else CreatedFor(files, forced, p, n - 1) + if Creates(files[n - 1], forced, p) then 1 else 0
  }

  /** The channels created by the first `n` files: the k-th of a provider, counted from zero, is `k`
      increments above its base. */
  function NewChannels(files: seq<File>, forced: Option<Provider>, existing: seq<Channel>, increment: nat, n: nat): seq<Channel>
    requires n <= |files|
  {
    if n == 0 then []
    else
      NewChannels(files, forced, existing, increment, n - 1)
      + if StatusOf(files[n - 1], forced) == Created then
          var p := ProviderOf(files[n - 1], forced).value;
          [Channel(p, PriorityAt(files, forced, existing, increment, p, n - 1))]
        else []
  }

  function PriorityAt(files: seq<File>, forced: Option<Provider>, existing: seq<Channel>, increment: nat, p: Provider, i: nat): int
    requires i <= |files|
  {
    Base(existing, p, increment) + CreatedFor(files, forced, p, i) * increment
  }

  lemma {:induction false} StatusesPartition(files: seq<File>, forced: Option<Provider>, n: nat)
    requires n <= |files|
    ensures Count(files, forced, Created, n) + Count(files, forced, Skipped, n) + Count(files, forced, Failed, n) == n
    ensures CreatedFor(files, forced, Codex, n) + CreatedFor(files, forced, Antigravity, n) == Count(files, forced, Created, n)
  {
    if n > 0 {
      StatusesPartition(files, forced, n - 1);
      var p := ProviderOf(files[n - 1], forced);
      assert p.Some? ==> p.value.Codex? || p.value.Antigravity?;
    }
  }

  lemma {:induction false} CreatedGrows(files: seq<File>, forced: Option<Provider>, p: Provider, i: nat, j: nat)
    requires i <= j <= |files|
    ensures CreatedFor(files, forced, p, i) <= CreatedFor(files, forced, p, j)
    ensures i < j && Creates(files[i], forced, p) ==> CreatedFor(files, forced, p, i) < CreatedFor(files, forced, p, j)
  {
    if i < j {
      CreatedGrows(files, forced, p, i, j - 1);
    }
  }

  /** With a positive increment the channels created for a provider have different priorities, which follow
      the order of the files, exceed every earlier channel of that provider and are an increment apart. */
  lemma PrioritiesFollowTheFiles(files: seq<File>, forced: Option<Provider>, existing: seq<Channel>, increment: nat,
                                 p: Provider, i: nat, j: nat)
    requires increment > 0 && i < j < |files| && Creates(files[i], forced, p) && Creates(files[j], forced, p)
    ensures var a, b := PriorityAt(files, forced, existing, increment, p, i), PriorityAt(files, forced, existing, increment, p, j);
            && a + increment <= b
            && (CreatedFor(files, forced, p, j) == CreatedFor(files, forced, p, i) + 1 ==> b == a + increment)
            && (forall c :: c in existing && c.provider == p ==> c.priority + increment <= a)
  {
    CreatedGrows(files, forced, p, i, j);
    var k, m := CreatedFor(files, forced, p, i), CreatedFor(files, forced, p, j);
    Multiples(k, m, increment);
    Multiples(0, k, increment);
  }

  lemma Multiples(k: nat, m: nat, d: nat)
    requires k <= m
    ensures k * d <= m * d
    ensures k < m ==> k * d + d <= m * d
    ensures m == k + 1 ==> m * d == k * d + d
  {
    assert (m - k) * d == m * d - k * d;
    if k < m {
      assert (m - k - 1) * d >= 0;
      assert (m - k - 1) * d == (m - k) * d - d;
    }
  }

  /** The file that a created channel comes from. */
  lemma {:induction false} FileOfChannel(files: seq<File>, forced: Option<Provider>, existing: seq<Channel>, increment: nat,
                                         n: nat, a: nat) returns (i: nat)
    requires n <= |files| && a < |NewChannels(files, forced, existing, increment, n)|
    ensures i < n && |NewChannels(files, forced, existing, increment, i)| == a
    ensures var c := NewChannels(files, forced, existing, increment, n)[a];
            Creates(files[i], forced, c.provider) && c.priority == PriorityAt(files, forced, existing, increment, c.provider, i)
  {
    if a < |NewChannels(files, forced, existing, increment, n - 1)| {
      i := FileOfChannel(files, forced, existing, increment, n - 1, a);
    } else {
      i := n - 1;
    }
  }

  lemma {:induction false} ChannelsGrow(files: seq<File>, forced: Option<Provider>, existing: seq<Channel>, increment: nat, i: nat, j: nat)
    requires i <= j <= |files|
    ensures |NewChannels(files, forced, existing, increment, i)| <= |NewChannels(files, forced, existing, increment, j)|
  {
    if i < j {
      ChannelsGrow(files, forced, existing, increment, i, j - 1);
    }
  }

  /** The same for the store: later channels of a provider rank higher, above everything that was there. */
  lemma StoredPrioritiesRise(files: seq<File>, forced: Option<Provider>, existing: seq<Channel>, increment: nat,
                             n: nat, a: nat, b: nat)
    requires increment > 0 && n <= |files| && a < b < |NewChannels(files, forced, existing, increment, n)|
    requires var cs := NewChannels(files, forced, existing, increment, n); cs[a].provider == cs[b].provider
    ensures var cs := NewChannels(files, forced, existing, increment, n);
            && cs[a].priority + increment <= cs[b].priority
            && forall c :: c in existing && c.provider == cs[a].provider ==> c.priority + increment <= cs[a].priority
  {
    var i := FileOfChannel(files, forced, existing, increment, n, a);
    var j := FileOfChannel(files, forced, existing, increment, n, b);
    if j <= i {
      ChannelsGrow(files, forced, existing, increment, j, i);
    }
    PrioritiesFollowTheFiles(files, forced, existing, increment,
                             NewChannels(files, forced, existing, increment, n)[a].provider, i, j);
  }

  lemma OneMoreCreated(files: seq<File>, forced: Option<Provider>, existing: seq<Channel>, increment: nat, p: Provider, n: nat)
    requires n < |files| && Creates(files[n], forced, p)
    ensures PriorityAt(files, forced, existing, increment, p, n + 1) ==
            PriorityAt(files, forced, existing, increment, p, n) + increment
    ensures forall q :: q != p ==>
              PriorityAt(files, forced, existing, increment, q, n + 1) == PriorityAt(files, forced, existing, increment, q, n)
    ensures NewChannels(files, forced, existing, increment, n + 1) ==
            NewChannels(files, forced, existing, increment, n)
            + [Channel(p, PriorityAt(files, forced, existing, increment, p, n))]
  {
    var k := CreatedFor(files, forced, p, n);
    Multiples(k, k + 1, increment);
  }

  /** Without an increment every created channel gets priority zero, whatever exists. */
  lemma {:induction false} NoIncrementNoPriority(files: seq<File>, forced: Option<Provider>, existing: seq<Channel>, n: nat)
    requires n <= |files|
    ensures forall c :: c in NewChannels(files, forced, existing, 0, n) ==> c.priority == 0
  {
    if n > 0 {
      NoIncrementNoPriority(files, forced, existing, n - 1);
    }
  }

  // ----- the run -----

  /** The summary after `n` files, as an event shows it. */
  function EventAfter(files: seq<File>, forced: Option<Provider>, kind: Kind, n: nat, name: string): Event
    requires n <= |files|
  {
    Event(kind, n, |files|, Count(files, forced, Created, n), Count(files, forced, Skipped, n),
          Count(files, forced, Failed, n), name)
  }

  /** The j-th event: one before and one after every file. */
  function EventNo(files: seq<File>, forced: Option<Provider>, j: nat): Event
    requires j < 2 * |files|
  {
    if j % 2 == 0 then EventAfter(files, forced, Processing, j / 2, files[j / 2].name)
    else EventAfter(files, forced, Progress, j / 2 + 1, files[j / 2].name)
  }

  lemma EventsOfFile(files: seq<File>, forced: Option<Provider>, i: nat)
    requires i < |files|
    ensures EventNo(files, forced, 2 * i) == EventAfter(files, forced, Processing, i, files[i].name)
    ensures EventNo(files, forced, 2 * i + 1) == EventAfter(files, forced, Progress, i + 1, files[i].name)
  {
    assert (2 * i) / 2 == i && (2 * i) % 2 == 0;
    assert (2 * i + 1) / 2 == i && (2 * i + 1) % 2 == 1;
  }

  /** The j-th event is told before or after file `j / 2`; it names that file and repeats how many of the files processed so
      far were created, skipped and failed. */
  lemma EventReads(files: seq<File>, forced: Option<Provider>, j: nat)
    requires j < 2 * |files|
    ensures var e, n := EventNo(files, forced, j), (j + 1) / 2;
            && n <= |files| && j / 2 < |files|
            && e == Event(if j % 2 == 0 then Processing else Progress, n, |files|, |Places(files, forced, Created, n)|,
                          |Places(files, forced, Skipped, n)|, |Places(files, forced, Failed, n)|, files[j / 2].name)
  {
    CountIsSize(files, forced, Created, (j + 1) / 2);
    CountIsSize(files, forced, Skipped, (j + 1) / 2);
    CountIsSize(files, forced, Failed, (j + 1) / 2);
  }

  /** Created, skipped and failed files add up to the files processed at every event. */
  lemma EventsBalance(files: seq<File>, forced: Option<Provider>, j: nat)
    requires j < 2 * |files|
    ensures var e := EventNo(files, forced, j); e.created + e.skipped + e.failed == e.processed <= e.total
  {
    StatusesPartition(files, forced, EventNo(files, forced, j).processed);
  }

  class Import {
    const files: seq<File>
    const forced: Option<Provider>
    const increment: nat
    ghost const existing: seq<Channel>
    var next: map<Provider, int>
    var channels: seq<Channel>
    var created: nat
    var skipped: nat
    var failed: nat
    var results: seq<Result>

    ghost predicate Valid()
      reads this
    {
      && |results| <= |files|
      && (forall i :: 0 <= i < |results| ==> results[i] == Result(files[i].name, StatusOf(files[i], forced)))
      && created == Count(files, forced, Created, |results|)
      && skipped == Count(files, forced, Skipped, |results|)
      && failed == Count(files, forced, Failed, |results|)
      && Seeded(|results|)
      && channels == existing + NewChannels(files, forced, existing, increment, |results|)
    }

    ghost predicate Seeded(n: nat)
      requires n <= |files|
      reads this
    {
      && Codex in next && next[Codex] == PriorityAt(files, forced, existing, increment, Codex, n)
      && Antigravity in next && next[Antigravity] == PriorityAt(files, forced, existing, increment, Antigravity, n)
    }

    constructor (files: seq<File>, forced: Option<Provider>, increment: nat, channels: seq<Channel>)
      ensures Valid() && results == []
      ensures this.files == files && this.forced == forced && this.increment == increment && existing == channels
    {
      var seeded := SeedPriorities(channels, increment);
      this.files, this.forced, this.increment, this.existing := files, forced, increment, channels;
      next := seeded;
      this.channels := channels;
      created, skipped, failed, results := 0, 0, 0, [];
    }

    /** runOAuthCredentialImportFile; `channels` is the store. */
    method RunFile() returns (status: Status)
      requires Valid() && |results| < |files|
      modifies `next, `channels
      ensures var n := |results|;
              && status == StatusOf(files[n], forced) && Seeded(n + 1)
              && channels == existing + NewChannels(files, forced, existing, increment, n + 1)
      ensures var f := files[|results|];
              if !f.broken && (forced.Some? || f.detection.Detected?) && f.outcome.NewChannel? then
                var p := if forced.Some? then forced.value else f.detection.provider;
                && status == Created && p in old(next)
                && channels == old(channels) + [Channel(p, old(next)[p])] && next == old(next)[p := old(next)[p] + increment]
              else status != Created && channels == old(channels) && next == old(next)
    {
      var file := files[|results|];
      if file.broken {
        return Failed;
      }
      var provider: Provider;
      if forced.Some? {
        provider := forced.value;
      } else {
        match file.detection
        case Undecodable => return Failed;
        case UnknownType => return Skipped;
        case Detected(p) => provider := p;
      }
      match file.outcome
      case Unusable => return Skipped;
      case ImportError => return Failed;
      case ExistingChannel => return Skipped;
      case NewChannel =>
        CreateChannel(provider);
        return Created;
    }

    method CreateChannel(provider: Provider)
      requires |results| < |files| && Seeded(|results|) && Creates(files[|results|], forced, provider)
      requires channels == existing + NewChannels(files, forced, existing, increment, |results|)
      modifies `next, `channels
      ensures Seeded(|results| + 1)
      ensures channels == existing + NewChannels(files, forced, existing, increment, |results| + 1)
      ensures provider in old(next) && channels == old(channels) + [Channel(provider, old(next)[provider])]
      ensures next == old(next)[provider := old(next)[provider] + increment]
    {
      assert provider == Codex || provider == Antigravity;
      OneMoreCreated(files, forced, existing, increment, provider, |results|);
      channels := channels + [Channel(provider, next[provider])];
      next := next[provider := next[provider] + increment];
    }

    /** appendOAuthCredentialImportResult */
    method Append(status: Status)
      modifies `created, `skipped, `failed, `results
      requires |results| < |files|
      ensures results == old(results) + [Result(files[old(|results|)].name, status)]
      ensures created == old(created) + (if status == Created then 1 else 0)
      ensures skipped == old(skipped) + (if status == Skipped then 1 else 0)
      ensures failed == old(failed) + (if status == Failed then 1 else 0)
    {
      match status {
        case Created => created := created + 1;
        case Skipped => skipped := skipped + 1;
        case Failed => failed := failed + 1;
      }
      results := results + [Result(files[|results|].name, status)];
    }

    method RunNext()
      requires Valid() && |results| < |files|
      modifies `next, `channels, `created, `skipped, `failed, `results
      ensures Valid() && |results| == old(|results|) + 1
    {
      var status := RunFile();
      Append(status);
    }

    /** What the run has told its observer; all but the last event were welcome. */
    ghost predicate Told(events: seq<Event>, observe: Event -> bool) {
      && |events| <= 2 * |files|
      && (forall j :: 0 <= j < |events| ==> events[j] == EventNo(files, forced, j))
      && (forall j :: 0 <= j < |events| - 1 ==> observe(events[j]))
    }

    predicate Welcome(events: seq<Event>, observe: Event -> bool) {
      events == [] || observe(events[|events| - 1])
    }

    lemma ToldMore(events: seq<Event>, observe: Event -> bool, e: Event)
      requires Told(events, observe) && Welcome(events, observe)
      requires |events| < 2 * |files| && e == EventNo(files, forced, |events|)
      ensures Told(events + [e], observe)
    {
    }

    /** runOAuthCredentialImport with an observer.  The run stops between files when the request is
        cancelled or the observer gives up; what it has done by then is complete. */
    method Run(cancelled: nat -> bool, observe: Event -> bool) returns (completed: bool, events: seq<Event>)
      requires Valid() && results == []
      modifies this
      ensures Valid() && Told(events, observe)
      ensures |events| == 2 * |results| || (|events| == 2 * |results| + 1 && !Welcome(events, observe))
      ensures completed <==> |results| == |files| && Welcome(events, observe)
      ensures |results| < |files| ==> cancelled(|results|) || !Welcome(events, observe)
    {
      events := [];
      for i := 0 to |files|
        invariant Valid() && |results| == i && |events| == 2 * i
        invariant Told(events, observe) && Welcome(events, observe)
      {
        if cancelled(i) {
          return false, events;
        }
        EventsOfFile(files, forced, i);
        var before := Event(Processing, |results|, |files|, created, skipped, failed, files[i].name);
        ToldMore(events, observe, before);
        events := events + [before];
        if !observe(before) {
          return false, events;
        }
        RunNext();
        var after := Event(Progress, |results|, |files|, created, skipped, failed, files[i].name);
        ToldMore(events, observe, after);
        events := events + [after];
        if !observe(after) {
          return false, events;
        }
      }
      completed := true;
    }
  }
}
