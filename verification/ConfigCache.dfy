/** The cache of parsed profiles, refreshed when the modification time of the config
    file differs. */
module ConfigCache {
  import opened Text
  import opened AwsParser

  type Mtime = int

  datatype File = Missing | File(contents: string, mtime: Mtime)

  datatype Cache = Cache(profiles: seq<ProfileInfo>, lastModified: Option<Mtime>)

  const EMPTY := Cache([], None)

  /** What a call meets: the modification time it reads first, if the file is there,
      and the contents it gets if it then reads the file. */
  datatype Sight = Sight(mtime: Option<Mtime>, contents: Option<string>)

  /** `profiles`, up to its result. */
  function Refreshed(cache: Cache, sight: Sight): Cache {
    if sight.mtime.None? then EMPTY
    else if cache.lastModified == sight.mtime then cache
    else if sight.contents.Some? then Cache(Parse(sight.contents.value), sight.mtime)
    else EMPTY
  }

  class CachedAwsConfig {
    var profiles: seq<ProfileInfo>
    var lastModified: Option<Mtime>

    ghost function View(): Cache
      reads this
    {
      Cache(profiles, lastModified)
    }

    constructor ()
      ensures View() == EMPTY
    {
      profiles, lastModified := [], None;
    }

    method Profiles(sight: Sight) returns (result: seq<ProfileInfo>)
      modifies this
      ensures View() == Refreshed(old(View()), sight) && result == View().profiles
    {
      hide Parse;
      var needsRefresh: bool;
      if sight.mtime.None? {
        profiles := [];
        lastModified := None;
        return profiles;
      } else if lastModified.None? {
        needsRefresh := true;
      } else {
        needsRefresh := lastModified.value != sight.mtime.value;
      }
      if needsRefresh {
        if sight.contents.Some? {
          profiles := ParseAwsConfig(sight.contents.value);
          lastModified := sight.mtime;
        } else {
          profiles := [];
          lastModified := None;
        }
      }
      return profiles;
    }
  }

  // ---------------------------------------------------------------------
  // Runs
  // ---------------------------------------------------------------------

  datatype Change = Write(contents: string, mtime: Mtime) | Remove

  /** The file, and every modification time a file has had. */
  datatype World = World(file: File, used: set<Mtime>)

  function Changed(w: World, change: Change): World {
    match change
    case Write(contents, mtime) => World(File(contents, mtime), w.used + {mtime})
    case Remove => w.(file := Missing)
  }

  function ChangedAll(w: World, changes: seq<Change>): World
    decreases |changes|
  {
    if changes == [] then w else ChangedAll(Changed(w, changes[0]), changes[1..])
  }

  /** Every write gets a modification time no file has had. */
  ghost predicate Fresh(w: World, changes: seq<Change>)
    decreases |changes|
  {
    changes == [] || ((changes[0].Write? ==> changes[0].mtime !in w.used) && Fresh(Changed(w, changes[0]), changes[1..]))
  }

  function MtimeOf(file: File): Option<Mtime> {
    if file.File? then Some(file.mtime) else None
  }

  function ContentsOf(file: File): Option<string> {
    if file.File? then Some(file.contents) else None
  }

  /** What a call cannot read: nothing, the modification time, or the contents. */
  datatype Failure = NoFailure | NoTime | NoContents

  /** A call that finds `before`, then `after` when it reads the contents. */
  function Seen(before: World, after: World, failure: Failure): Sight {
    Sight(if failure.NoTime? then None else MtimeOf(before.file), if failure.NoContents? then None else ContentsOf(after.file))
  }

  /** If the file has the remembered time, the remembered profiles are its parse. */
  ghost predicate Valid(cache: Cache, w: World) {
    && (w.file.File? ==> w.file.mtime in w.used)
    && (cache.lastModified.Some? ==> cache.lastModified.value in w.used)
    && (w.file.File? && cache.lastModified == Some(w.file.mtime) ==> cache.profiles == Parse(w.file.contents))
    && (cache.lastModified.None? ==> cache.profiles == [])
  }

  lemma {:induction false} ChangesKeepValid(cache: Cache, w: World, changes: seq<Change>)
    requires Valid(cache, w) && Fresh(w, changes)
    ensures Valid(cache, ChangedAll(w, changes))
    decreases |changes|
  {
    hide Parse;
    if changes != [] { ChangesKeepValid(cache, Changed(w, changes[0]), changes[1..]); }
  }

  /** The time remembered by a refresh is the file's only if nothing was written
      since it was read. */
  lemma {:induction false} TimesDoNotReturn(w: World, changes: seq<Change>, m: Mtime)
    requires Fresh(w, changes) && m in w.used
    ensures var after := ChangedAll(w, changes);
            m in after.used
            && (after.file.File? && after.file.mtime == m ==> w.file.File? && w.file.mtime == m && after.file == w.file)
    decreases |changes|
  {
    if changes != [] { TimesDoNotReturn(Changed(w, changes[0]), changes[1..], m); }
  }

  /** A call keeps the cache valid, also when writes land between its two reads. */
  lemma {:induction false} CallKeepsValid(cache: Cache, w: World, changes: seq<Change>, failure: Failure)
    requires Valid(cache, w) && Fresh(w, changes)
    ensures var after := ChangedAll(w, changes);
            Valid(Refreshed(cache, Seen(w, after, failure)), after)
  {
    hide Parse, Fresh, ChangedAll;
    ChangesKeepValid(cache, w, changes);
    if w.file.File? { TimesDoNotReturn(w, changes, w.file.mtime); }
  }

  /** A call returns the parse of contents the file had during the call, and nothing
      if the file was missing or could not be read. If nothing is written during
      the call, that is the parse of the file. */
  lemma {:induction false} CallReturnsParse(cache: Cache, w: World, changes: seq<Change>, failure: Failure)
    requires Valid(cache, w) && Fresh(w, changes)
    ensures var after := ChangedAll(w, changes);
            var result := Refreshed(cache, Seen(w, after, failure)).profiles;
            && (w.file.Missing? || failure.NoTime? ==> result == [])
            && (changes == [] && failure.NoFailure? && w.file.File? ==> result == Parse(w.file.contents))
            && (result != [] ==>
                  || (w.file.File? && result == Parse(w.file.contents))
                  || (after.file.File? && result == Parse(after.file.contents)))
  {
    hide Parse, Fresh;
  }

  /** Steps of a run: changes of the file, and calls with changes between their reads. */
  datatype Event = Changes(change: Change) | Call(during: seq<Change>, failure: Failure)

  function After(w: World, event: Event): World {
    match event case Changes(change) => Changed(w, change) case Call(during, _) => ChangedAll(w, during)
  }

  function CacheAfter(cache: Cache, w: World, event: Event): Cache {
    match event case Changes(_) => cache case Call(_, failure) => Refreshed(cache, Seen(w, After(w, event), failure))
  }

  ghost predicate FreshEvent(w: World, event: Event) {
    match event case Changes(change) => Fresh(w, [change]) case Call(during, _) => Fresh(w, during)
  }

  /** Along the run every quiet, successful read agrees with the file. */
  ghost predicate Agrees(cache: Cache, w: World, events: seq<Event>)
    decreases |events|
  {
    events == [] ||
      var event := events[0];
      var after := After(w, event);
      var cache' := CacheAfter(cache, w, event);
      && (event == Call([], NoFailure) ==> cache'.profiles == if w.file.File? then Parse(w.file.contents) else [])
      && Agrees(cache', after, events[1..])
  }

  ghost predicate FreshRun(w: World, events: seq<Event>)
    decreases |events|
  {
    events == [] || (FreshEvent(w, events[0]) && FreshRun(After(w, events[0]), events[1..]))
  }

  lemma {:induction false} CacheAgrees(cache: Cache, w: World, events: seq<Event>)
    requires Valid(cache, w) && FreshRun(w, events)
    ensures Agrees(cache, w, events)
    decreases |events|
  {
    hide Parse, Valid, Refreshed;
    if events != [] {
      match events[0] {
        case Changes(change) =>
          ChangesKeepValid(cache, w, [change]);
          assert [change][1..] == [];
          assert ChangedAll(w, [change]) == Changed(w, change);
        case Call(during, failure) =>
          CallKeepsValid(cache, w, during, failure);
          CallReturnsParse(cache, w, during, failure);
      }
      CacheAgrees(CacheAfter(cache, w, events[0]), After(w, events[0]), events[1..]);
    }
  }

  /** A new cache agrees with the file on every run in which writes get new times. */
  lemma {:induction false} NewCacheAgrees(w: World, events: seq<Event>)
    requires (w.file.File? ==> w.file.mtime in w.used) && FreshRun(w, events)
    ensures Agrees(EMPTY, w, events)
  {
    CacheAgrees(EMPTY, w, events);
  }

  /** A write that keeps the remembered time is not seen: the call then agrees with
      the file exactly if the parse is the same. */
  lemma {:induction false} SameTimeIsMissed(cache: Cache, w: World, contents: string)
    requires Valid(cache, w) && w.file.File? && cache.lastModified == Some(w.file.mtime)
    ensures var after := Changed(w, Write(contents, w.file.mtime));
            Refreshed(cache, Seen(after, after, NoFailure)).profiles == Parse(contents) <==> Parse(contents) == Parse(w.file.contents)
  {
    hide Parse;
  }
}
