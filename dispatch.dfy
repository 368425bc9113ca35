/**
 * `watch`: start a recursive, debounced watch on the source, then take
 * events off the channel one at a time.  Creations and writes go to
 * `copy_to_dest`, which works out the path relative to the source; every
 * other event is skipped and a failed receive is logged, and in both cases
 * the loop carries on.  The channel is modelled by the finite sequence of
 * what the receives return, in delivery order.
 */
module Dispatch {
  import opened Results
  import opened Paths
  import opened Configuration

  /**
   * `notify::DebouncedEvent`.  The watcher builds its paths from the names
   * it finds on disk, so they are given by their components.
   */
  datatype DebouncedEvent =
    | NoticeWrite(path: Path)
    | NoticeRemove(path: Path)
    | Create(path: Path)
    | Write(path: Path)
    | Chmod(path: Path)
    | Remove(path: Path)
    | Rename(source: Path, target: Path)
    | Rescan
    | Error(message: string, errorPath: Option<Path>)

  /** What one `rx.recv()` returns: an event, or a `RecvError`. */
  datatype Received = Delivered(event: DebouncedEvent) | RecvError

  /** The outcomes of setting the watcher up: `Watcher::new`, then `watcher.watch`. */
  datatype WatcherSetup = WatcherSetup(newError: Option<string>, watchError: Option<string>) {
    /** Both steps succeeded, so the loop runs. */
    predicate Starts() {
      newError.None? && watchError.None?
    }
  }

  /** `watch` either fails to start, or is running and has copied these relative paths so far. */
  datatype WatchRun = Failed(message: string) | Running(copied: seq<Path>)

  /** The events the loop hands to `copy_to_dest`. */
  predicate IsCopyEvent(r: Received) {
    r.Delivered? && (r.event.Create? || r.event.Write?)
  }

  /** `path` lies in the source tree, so that `diff_paths` has an answer. */
  predicate UnderSource(config: Config, path: Path) {
    IsAncestor(Parse(config.src), path)
  }

  /** Every path the loop will relativise lies in the source tree. */
  predicate EventsUnderSource(config: Config, events: seq<Received>) {
    forall i :: 0 <= i < |events| ==> IsCopyEvent(events[i]) ==> UnderSource(config, events[i].event.path)
  }

  /**
   * `make_path_relative_to_src`: `diff_paths(path, src)`, for a path in the
   * source tree.  Joining the result onto the source gives the path back.
   */
  function MakePathRelativeToSrc(config: Config, path: Path): (rel: Path)
    requires UnderSource(config, path)
    ensures !rel.rooted
    ensures IsCanonical(path) ==> IsCanonical(rel)
    ensures JoinPath(Parse(config.src), rel) == path
    ensures |rel.names| == |path.names| - |Parse(config.src).names|
  {
    DiffPaths(path, Parse(config.src))
  }

  /** `copy_to_dest`: it logs, and computes the path relative to the source. */
  function CopyToDest(config: Config, path: Path): (rel: Path)
    requires UnderSource(config, path)
    ensures !rel.rooted
    ensures JoinPath(Parse(config.src), rel) == path
  {
    MakePathRelativeToSrc(config, path)
  }

  /**
   * One arm of the loop's `match`: a creation or a write yields the path
   * `copy_to_dest` computes for the event's own path; anything else yields nothing.
   */
  function Handle(config: Config, r: Received): (out: seq<Path>)
    requires IsCopyEvent(r) ==> UnderSource(config, r.event.path)
    ensures |out| == if IsCopyEvent(r) then 1 else 0
    ensures IsCopyEvent(r) ==> !out[0].rooted && JoinPath(Parse(config.src), out[0]) == r.event.path
  {
    match r
    case Delivered(Create(path)) => [CopyToDest(config, path)]
    case Delivered(Write(path)) => [CopyToDest(config, path)]
    case Delivered(_) => []
    case RecvError => []
  }

  /** The relative paths the loop copies over a run of receives, in order. */
  function Dispatched(config: Config, events: seq<Received>): (copied: seq<Path>)
    requires EventsUnderSource(config, events)
    ensures |copied| <= |events|
  {
    if events == [] then []
    else
      assert IsCopyEvent(events[0]) ==> UnderSource(config, events[0].event.path);
      Handle(config, events[0]) + Dispatched(config, events[1..])
  }

  /** The same condition holds of any stretch of the events. */
  lemma SliceUnderSource(config: Config, events: seq<Received>, lo: int, hi: int)
    requires EventsUnderSource(config, events)
    requires 0 <= lo <= hi <= |events|
    ensures EventsUnderSource(config, events[lo..hi])
  {
    forall i | 0 <= i < hi - lo
      ensures IsCopyEvent(events[lo..hi][i]) ==> UnderSource(config, events[lo..hi][i].event.path)
    {
      assert events[lo..hi][i] == events[lo + i];
    }
  }

  /** Dispatch over two runs back to back is the dispatch of each, concatenated. */
  lemma {:induction false} DispatchedAppend(config: Config, a: seq<Received>, b: seq<Received>)
    requires EventsUnderSource(config, a + b)
    ensures EventsUnderSource(config, a) && EventsUnderSource(config, b)
    ensures Dispatched(config, a + b) == Dispatched(config, a) + Dispatched(config, b)
  {
    SliceUnderSource(config, a + b, 0, |a|);
    SliceUnderSource(config, a + b, |a|, |a + b|);
    assert (a + b)[..|a|] == a;
    assert (a + b)[|a|..] == b;
    if a == [] {
      assert a + b == b;
    } else {
      assert (a + b)[0] == a[0];
      assert (a + b)[1..] == a[1..] + b;
      DispatchedAppend(config, a[1..], b);
    }
  }

  /**
   * An event that is not a creation or a write, a receive error included,
   * contributes nothing and does not stop what comes after it.
   */
  lemma SkippedEventContributesNothing(config: Config, a: seq<Received>, e: Received, b: seq<Received>)
    requires !IsCopyEvent(e)
    requires EventsUnderSource(config, a + [e] + b)
    ensures EventsUnderSource(config, a) && EventsUnderSource(config, b)
    ensures Dispatched(config, a + [e] + b) == Dispatched(config, a) + Dispatched(config, b)
  {
    DispatchedAppend(config, a + [e], b);
    DispatchedAppend(config, a, [e]);
    assert Dispatched(config, [e]) == Handle(config, e) + Dispatched(config, []);
  }

  /** How many entries the events before index `i` yield. */
  function Rank(config: Config, events: seq<Received>, i: int): nat
    requires EventsUnderSource(config, events)
    requires 0 <= i <= |events|
  {
    SliceUnderSource(config, events, 0, i);
    |Dispatched(config, events[..i])|
  }

  /** Dispatch over a non-empty prefix: its first event, then the rest of the prefix. */
  lemma PrefixDispatched(config: Config, events: seq<Received>, i: int)
    requires EventsUnderSource(config, events)
    requires 0 < i <= |events|
    ensures EventsUnderSource(config, events[1..])
    ensures Rank(config, events, i) == |Handle(config, events[0])| + Rank(config, events[1..], i - 1)
  {
    SliceUnderSource(config, events, 1, |events|);
    SliceUnderSource(config, events, 0, i);
    SliceUnderSource(config, events[1..], 0, i - 1);
    var pre := events[..i];
    assert pre[0] == events[0];
    assert pre[1..] == events[1..][..i - 1];
    assert Dispatched(config, pre) == Handle(config, pre[0]) + Dispatched(config, pre[1..]);
  }

  /**
   * The creation or write at index `i` yields the output entry at position
   * `Rank(i)`: the path relative to the source of that event's own path.
   */
  lemma DispatchedAt(config: Config, events: seq<Received>, i: int)
    requires EventsUnderSource(config, events)
    requires 0 <= i < |events| && IsCopyEvent(events[i])
    ensures Rank(config, events, i) < |Dispatched(config, events)|
    ensures Dispatched(config, events)[Rank(config, events, i)]
         == MakePathRelativeToSrc(config, events[i].event.path)
  {
    assert events == events[..i] + events[i..];
    DispatchedAppend(config, events[..i], events[i..]);
    var rest := events[i..];
    assert rest[0] == events[i];
    assert Dispatched(config, rest) == Handle(config, events[i]) + Dispatched(config, rest[1..]);
  }

  /** Creations and writes yield their entries in delivery order, one each. */
  lemma RankIncreases(config: Config, events: seq<Received>, i: int, j: int)
    requires EventsUnderSource(config, events)
    requires 0 <= i < j <= |events| && IsCopyEvent(events[i])
    ensures Rank(config, events, i) < Rank(config, events, j)
  {
    SliceUnderSource(config, events, 0, j);
    var pre := events[..j];
    assert pre[..i] == events[..i];
    assert pre == pre[..i] + pre[i..];
    DispatchedAppend(config, pre[..i], pre[i..]);
    var rest := pre[i..];
    assert rest[0] == events[i];
    assert Dispatched(config, rest) == Handle(config, events[i]) + Dispatched(config, rest[1..]);
  }

  /** Every output entry comes from some creation or write. */
  lemma {:induction false} DispatchedOnto(config: Config, events: seq<Received>, k: int)
    requires EventsUnderSource(config, events)
    requires 0 <= k < |Dispatched(config, events)|
    ensures exists i :: 0 <= i < |events| && IsCopyEvent(events[i]) && Rank(config, events, i) == k
  {
    var tail := events[1..];
    SliceUnderSource(config, events, 1, |events|);
    var here := Handle(config, events[0]);
    assert Dispatched(config, events) == here + Dispatched(config, tail);
    if IsCopyEvent(events[0]) && k == 0 {
      assert events[..0] == [];
      assert Rank(config, events, 0) == 0;
    } else {
      DispatchedOnto(config, tail, k - |here|);
      var i' :| 0 <= i' < |tail| && IsCopyEvent(tail[i']) && Rank(config, tail, i') == k - |here|;
      PrefixDispatched(config, events, i' + 1);
      assert events[i' + 1] == tail[i'];
    }
  }

  /** One more receive extends the dispatch of the prefix by what that receive yields. */
  lemma DispatchedStep(config: Config, events: seq<Received>, i: int)
    requires EventsUnderSource(config, events)
    requires 0 <= i < |events|
    ensures EventsUnderSource(config, events[..i]) && EventsUnderSource(config, events[..i + 1])
    ensures Dispatched(config, events[..i + 1]) == Dispatched(config, events[..i]) + Handle(config, events[i])
  {
    SliceUnderSource(config, events, 0, i + 1);
    assert events[..i + 1] == events[..i] + [events[i]];
    DispatchedAppend(config, events[..i], [events[i]]);
    assert Dispatched(config, [events[i]]) == Handle(config, events[i]) + Dispatched(config, []);
  }

  /** `watch` over a run of receives, as a value. */
  function WatchResult(config: Config, setup: WatcherSetup, events: seq<Received>): WatchRun
    requires setup.Starts() ==> EventsUnderSource(config, events)
  {
    if setup.newError.Some? then Failed(setup.newError.value)
    else if setup.watchError.Some? then Failed(setup.watchError.value)
    else Running(Dispatched(config, events))
  }

  /**
   * `watch`: a watcher that cannot be built or registered is an error with
   * the watcher's message; otherwise the loop goes through every receive in
   * order and copies exactly what `Dispatched` says.
   */
  method Watch(config: Config, setup: WatcherSetup, events: seq<Received>) returns (run: WatchRun)
    requires setup.Starts() ==> EventsUnderSource(config, events)
    ensures run == WatchResult(config, setup, events)
    ensures run.Failed? <==> setup.newError.Some? || setup.watchError.Some?
    ensures setup.newError.Some? ==> run.message == setup.newError.value
    ensures run.Running? ==> run.copied == Dispatched(config, events)
  {
    if setup.newError.Some? {
      return Failed(setup.newError.value);
    }
    if setup.watchError.Some? {
      return Failed(setup.watchError.value);
    }
    var copied: seq<Path> := [];
    var i := 0;
    while i < |events|
      invariant 0 <= i <= |events|
      invariant EventsUnderSource(config, events[..i])
      invariant copied == Dispatched(config, events[..i])
    {
      var received := events[i];
      DispatchedStep(config, events, i);
      match received {
        case Delivered(Create(path)) =>
          var rel := CopyToDest(config, path);
          copied := copied + [rel];
        case Delivered(Write(path)) =>
          var rel := CopyToDest(config, path);
          copied := copied + [rel];
        case Delivered(_) =>
        case RecvError =>
      }
      i := i + 1;
    }
    assert events[..i] == events;
    return Running(copied);
  }

  /** The text `/a` reads as the rooted path with the one name `a`. */
  lemma SourceTextExample()
    ensures Parse("/a") == Path(true, ["a"])
  {
    ParseRootedJoined(["a"]);
    assert [Separator] + JoinParts(["a"]) == "/a";
  }

  /** With source `/a`, a file created as `/a/x/y.txt` is copied as `x/y.txt`. */
  lemma CreatedFileExample()
    ensures UnderSource(Config("/a", "/b"), Path(true, ["a", "x", "y.txt"]))
    ensures Dispatched(Config("/a", "/b"), [Delivered(Create(Path(true, ["a", "x", "y.txt"])))])
         == [Path(false, ["x", "y.txt"])]
  {
    SourceTextExample();
    var config := Config("/a", "/b");
    var events := [Delivered(Create(Path(true, ["a", "x", "y.txt"])))];
    assert ["a"] <= ["a", "x", "y.txt"];
    assert ["a", "x", "y.txt"][1..] == ["x", "y.txt"];
    assert Dispatched(config, events) == Handle(config, events[0]) + Dispatched(config, []);
  }
}
