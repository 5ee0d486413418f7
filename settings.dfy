/**
 * The process-wide settings object: a handful of tunable values, each with
 * an "override" flag that, once set through the API, takes precedence over
 * the rc configuration file; and the bookkeeping that decides when that rc
 * file is polled and re-parsed.
 *
 * The clock and the file's modification time are inputs: `now` is the
 * wall-clock second at which a call reads the clock, and `mtime` is what
 * stat() reports for the rc file at that moment (`None` when stat fails).
 * Parsing the file is an event reported to the caller, not modelled.
 */
module Settings {
  import opened Wrappers

  type Uint32 = x: int | 0 <= x < 0x1_0000_0000
  type Uint64 = x: int | 0 <= x < 0x1_0000_0000_0000_0000

  /** std::numeric_limits<long>::max() on an LP64 platform. */
  const LongMax: int := 0x7fff_ffff_ffff_ffff

  const DefaultPollPeriod: real := 5.0
  const DefaultSystemCacheSize: Uint64 := 768 * 1024 * 1024
  const DefaultWritePoolSize: Uint32 := 21
  const DefaultTileSize: Uint32 := 256
  const DefaultTmpDirectory: string := "/tmp"
  const RcBaseName: string := "/.vwrc"

  // ---------------------------------------------------------------------
  // The rc-file poll state as a value
  // ---------------------------------------------------------------------

  /** The fields guarded by the time and file locks. */
  datatype RcPoll = RcPoll(filename: string, lastPolltime: int, lastModification: int, pollPeriod: real)

  /** More than a poll period has passed since the last poll. */
  predicate PollDue(rc: RcPoll, now: int)
  {
    (now - rc.lastPolltime) as real > rc.pollPeriod
  }

  /** A reload attempt at `now` re-reads the file. */
  predicate ReloadParses(rc: RcPoll, now: int, mtime: Option<int>)
  {
    PollDue(rc, now) && mtime.Some? && mtime.value > rc.lastModification
  }

  /** The poll state after reload_config at `now`. */
  function Reload(rc: RcPoll, now: int, mtime: Option<int>): RcPoll
  {
    if !PollDue(rc, now) then rc
    else
      var polled := rc.(lastPolltime := now);
      if mtime.Some? && mtime.value > rc.lastModification then polled.(lastModification := mtime.value)
      else polled
  }

  /** The locked part of set_rc_filename, before it calls reload_config. */
  function Renamed(rc: RcPoll, filename: string): RcPoll
  {
    if filename == rc.filename then rc
    else if filename == "" then RcPoll(filename, LongMax, LongMax, rc.pollPeriod)
    else RcPoll(filename, 0, 0, rc.pollPeriod)
  }

  /** The locked part of set_rc_poll_period, before it calls reload_config. */
  function Repolled(rc: RcPoll, period: real): RcPoll
  {
    rc.(pollPeriod := period, lastPolltime := 0)
  }

  /** Every reload attempt in turn, each at a clock reading and a stat result. */
  function ReloadAll(rc: RcPoll, attempts: seq<(int, Option<int>)>): RcPoll
    decreases |attempts|
  {
    if attempts == [] then rc
    else ReloadAll(Reload(rc, attempts[0].0, attempts[0].1), attempts[1..])
  }

  /** A reload attempt stamps the poll time exactly when it is due, and
      records the new modification time exactly when it parses. */
  lemma ReloadSpec(rc: RcPoll, now: int, mtime: Option<int>)
    ensures Reload(rc, now, mtime).filename == rc.filename
    ensures Reload(rc, now, mtime).pollPeriod == rc.pollPeriod
    ensures Reload(rc, now, mtime).lastPolltime == (if PollDue(rc, now) then now else rc.lastPolltime)
    ensures ReloadParses(rc, now, mtime) ==> Reload(rc, now, mtime).lastModification == mtime.value > rc.lastModification
    ensures !ReloadParses(rc, now, mtime) ==> Reload(rc, now, mtime).lastModification == rc.lastModification
  {
  }

  /** The recorded modification time never goes back. */
  lemma {:induction false} LastModificationMonotone(rc: RcPoll, attempts: seq<(int, Option<int>)>)
    ensures ReloadAll(rc, attempts).lastModification >= rc.lastModification
    ensures ReloadAll(rc, attempts).filename == rc.filename
    ensures ReloadAll(rc, attempts).pollPeriod == rc.pollPeriod
    decreases |attempts|
  {
    if attempts != [] {
      LastModificationMonotone(Reload(rc, attempts[0].0, attempts[0].1), attempts[1..]);
    }
  }

  /** With a non-negative period, a second attempt in the same second neither
      polls nor parses, whatever stat reports then. */
  lemma ReloadSameInstant(rc: RcPoll, now: int, mtime: Option<int>, mtime': Option<int>)
    requires rc.pollPeriod >= 0.0
    ensures !ReloadParses(Reload(rc, now, mtime), now, mtime')
    ensures PollDue(rc, now) ==> Reload(Reload(rc, now, mtime), now, mtime') == Reload(rc, now, mtime)
  {
    var r := Reload(rc, now, mtime);
    if PollDue(rc, now) {
      assert r.lastPolltime == now;
      assert (now - r.lastPolltime) as real == 0.0;
    }
  }

  /** An unchanged file is not parsed again: once a modification time has been
      recorded, reporting the same one never triggers a parse. */
  lemma SameModificationTimeNotReparsed(rc: RcPoll, now: int, m: int)
    requires ReloadParses(rc, now, Some(m))
    ensures forall later :: !ReloadParses(Reload(rc, now, Some(m)), later, Some(m))
  {
  }

  /** Setting the current name again changes nothing. */
  lemma RenameToSameName(rc: RcPoll)
    ensures Renamed(rc, rc.filename) == rc
  {
  }

  /** Switching to an empty name disables the file: no clock reading up to
      LONG_MAX makes a later attempt poll, with any non-negative period, and
      no modification time a time_t can hold makes it parse. */
  lemma {:induction false} EmptyNameDisablesReload(rc: RcPoll, attempts: seq<(int, Option<int>)>)
    requires rc.filename != "" && rc.pollPeriod >= 0.0
    requires forall k :: 0 <= k < |attempts| ==> attempts[k].0 <= LongMax
    ensures ReloadAll(Renamed(rc, ""), attempts) == Renamed(rc, "")
  {
    var off := Renamed(rc, "");
    if attempts != [] {
      assert !PollDue(off, attempts[0].0);
      EmptyNameDisablesReload(rc, attempts[1..]);
    }
  }

  /** Switching to a new, non-empty name forces the next due attempt to parse
      any existing file with a positive modification time. */
  lemma NewNameForcesParse(rc: RcPoll, filename: string, now: int, m: int)
    requires filename != "" && filename != rc.filename
    requires now as real > rc.pollPeriod && m > 0
    ensures ReloadParses(Renamed(rc, filename), now, Some(m))
    ensures Reload(Renamed(rc, filename), now, Some(m)) == RcPoll(filename, now, m, rc.pollPeriod)
  {
  }

  /** Changing the poll period forgets the last poll, so an attempt at any
      clock reading beyond the new period polls. */
  lemma RepolledForcesPoll(rc: RcPoll, period: real, now: int)
    requires now as real > period
    ensures PollDue(Repolled(rc, period), now)
    ensures Reload(Repolled(rc, period), now, None) == RcPoll(rc.filename, now, rc.lastModification, period)
  {
  }

  // ---------------------------------------------------------------------
  // The settings object
  // ---------------------------------------------------------------------

  /** The tunable values, as one snapshot. */
  datatype Values = Values(defaultNumThreads: Uint32, systemCacheSize: Uint64, writePoolSize: Uint32,
                           defaultTileSize: Uint32, tmpDirectory: string)

  /** Which of the values were set through the API. */
  datatype Overrides = Overrides(defaultNumThreads: bool, systemCacheSize: bool, writePoolSize: bool,
                                 defaultTileSize: bool, tmpDirectory: bool)

  /** The values a fresh settings object holds. */
  function DefaultValues(vwNumThreads: Uint32): (v: Values)
    ensures v.defaultNumThreads == vwNumThreads && v.systemCacheSize == 805306368
    ensures v.writePoolSize == 21 && v.defaultTileSize == 256 && v.tmpDirectory == "/tmp"
  {
    Values(vwNumThreads, DefaultSystemCacheSize, DefaultWritePoolSize, DefaultTileSize, DefaultTmpDirectory)
  }

  const NoOverrides: Overrides := Overrides(false, false, false, false, false)

  class Settings {
    /** VW_NUM_THREADS, the build-time default thread count. */
    const vwNumThreads: Uint32

    var rcFilename: string
    var rcLastPolltime: int
    var rcLastModification: int
    var rcPollPeriod: real

    var defaultNumThreads: Uint32
    var systemCacheSize: Uint64
    var writePoolSize: Uint32
    var defaultTileSize: Uint32
    var tmpDirectory: string

    var defaultNumThreadsOverride: bool
    var systemCacheSizeOverride: bool
    var writePoolSizeOverride: bool
    var defaultTileSizeOverride: bool
    var tmpDirectoryOverride: bool

    function Poll(): RcPoll
      reads this
    {
      RcPoll(rcFilename, rcLastPolltime, rcLastModification, rcPollPeriod)
    }

    function CurrentValues(): Values
      reads this
    {
      Values(defaultNumThreads, systemCacheSize, writePoolSize, defaultTileSize, tmpDirectory)
    }

    function CurrentOverrides(): Overrides
      reads this
    {
      Overrides(defaultNumThreadsOverride, systemCacheSizeOverride, writePoolSizeOverride,
                defaultTileSizeOverride, tmpDirectoryOverride)
    }

    /** A fresh object: the rc file in the home directory, polled every five
        seconds, never polled or read yet, built-in defaults, no overrides. */
    constructor (homedir: string, vwNumThreads: Uint32)
      ensures this.vwNumThreads == vwNumThreads
      ensures Poll() == RcPoll(homedir + RcBaseName, 0, 0, DefaultPollPeriod)
      ensures CurrentValues() == DefaultValues(vwNumThreads)
      ensures CurrentOverrides() == NoOverrides
    {
      this.vwNumThreads := vwNumThreads;
      rcLastPolltime := 0;
      rcLastModification := 0;
      rcPollPeriod := DefaultPollPeriod;
      rcFilename := homedir + RcBaseName;
      defaultNumThreads := vwNumThreads;
      systemCacheSize := DefaultSystemCacheSize;
      writePoolSize := DefaultWritePoolSize;
      defaultTileSize := DefaultTileSize;
      tmpDirectory := DefaultTmpDirectory;
      defaultNumThreadsOverride := false;
      systemCacheSizeOverride := false;
      writePoolSizeOverride := false;
      defaultTileSizeOverride := false;
      tmpDirectoryOverride := false;
    }

    /** Polls the rc file if a poll period has passed, and reports whether it
        was re-read. */
    method ReloadConfig(now: int, mtime: Option<int>) returns (parsed: bool)
      modifies this`rcLastPolltime, this`rcLastModification
      ensures Poll() == Reload(old(Poll()), now, mtime)
      ensures parsed == ReloadParses(old(Poll()), now, mtime)
    {
      parsed := false;
      var needsReloading := false;
      if (now - rcLastPolltime) as real > rcPollPeriod {
        rcLastPolltime := now;
        needsReloading := true;
      }
      if needsReloading {
        if mtime.None? {
          return;
        }
        if mtime.value > rcLastModification {
          rcLastModification := mtime.value;
          parsed := true;
        }
      }
    }

    /** A getter consults the rc file exactly when its value is not overridden. */
    method ReloadUnlessOverridden(overridden: bool, now: int, mtime: Option<int>) returns (parsed: bool)
      modifies this`rcLastPolltime, this`rcLastModification
      ensures Poll() == if overridden then old(Poll()) else Reload(old(Poll()), now, mtime)
      ensures parsed == (!overridden && ReloadParses(old(Poll()), now, mtime))
    {
      parsed := false;
      if !overridden {
        parsed := ReloadConfig(now, mtime);
      }
    }

    method GetDefaultNumThreads(now: int, mtime: Option<int>) returns (num: Uint32, parsed: bool)
      modifies this`rcLastPolltime, this`rcLastModification
      ensures num == defaultNumThreads == old(defaultNumThreads)
      ensures Poll() == if defaultNumThreadsOverride then old(Poll()) else Reload(old(Poll()), now, mtime)
      ensures parsed == (!defaultNumThreadsOverride && ReloadParses(old(Poll()), now, mtime))
    {
      parsed := ReloadUnlessOverridden(defaultNumThreadsOverride, now, mtime);
      num := defaultNumThreads;
    }

    /** A non-zero count overrides the file; zero restores VW_NUM_THREADS,
        hands the value back to the file and consults it. */
    method SetDefaultNumThreads(num: Uint32, now: int, mtime: Option<int>) returns (parsed: bool)
      modifies this`defaultNumThreads, this`defaultNumThreadsOverride, this`rcLastPolltime, this`rcLastModification
      ensures CurrentValues() == old(CurrentValues()).(defaultNumThreads := if num == 0 then vwNumThreads else num)
      ensures CurrentOverrides() == old(CurrentOverrides()).(defaultNumThreads := num != 0)
      ensures Poll() == if num == 0 then Reload(old(Poll()), now, mtime) else old(Poll())
      ensures parsed == (num == 0 && ReloadParses(old(Poll()), now, mtime))
    {
      if num == 0 {
        defaultNumThreadsOverride := false;
        defaultNumThreads := vwNumThreads;
      } else {
        defaultNumThreadsOverride := true;
        defaultNumThreads := num;
      }
      parsed := false;
      if num == 0 {
        parsed := ReloadConfig(now, mtime);
      }
    }

    method GetSystemCacheSize(now: int, mtime: Option<int>) returns (size: Uint64, parsed: bool)
      modifies this`rcLastPolltime, this`rcLastModification
      ensures size == systemCacheSize == old(systemCacheSize)
      ensures Poll() == if systemCacheSizeOverride then old(Poll()) else Reload(old(Poll()), now, mtime)
      ensures parsed == (!systemCacheSizeOverride && ReloadParses(old(Poll()), now, mtime))
    {
      parsed := ReloadUnlessOverridden(systemCacheSizeOverride, now, mtime);
      size := systemCacheSize;
    }

    method SetSystemCacheSize(size: Uint64)
      modifies this`systemCacheSize, this`systemCacheSizeOverride
      ensures CurrentValues() == old(CurrentValues()).(systemCacheSize := size)
      ensures CurrentOverrides() == old(CurrentOverrides()).(systemCacheSize := true)
    {
      systemCacheSizeOverride := true;
      systemCacheSize := size;
    }

    method GetWritePoolSize(now: int, mtime: Option<int>) returns (size: Uint32, parsed: bool)
      modifies this`rcLastPolltime, this`rcLastModification
      ensures size == writePoolSize == old(writePoolSize)
      ensures Poll() == if writePoolSizeOverride then old(Poll()) else Reload(old(Poll()), now, mtime)
      ensures parsed == (!writePoolSizeOverride && ReloadParses(old(Poll()), now, mtime))
    {
      parsed := ReloadUnlessOverridden(writePoolSizeOverride, now, mtime);
      size := writePoolSize;
    }

    method SetWritePoolSize(size: Uint32)
      modifies this`writePoolSize, this`writePoolSizeOverride
      ensures CurrentValues() == old(CurrentValues()).(writePoolSize := size)
      ensures CurrentOverrides() == old(CurrentOverrides()).(writePoolSize := true)
    {
      writePoolSizeOverride := true;
      writePoolSize := size;
    }

    method GetDefaultTileSize(now: int, mtime: Option<int>) returns (size: Uint32, parsed: bool)
      modifies this`rcLastPolltime, this`rcLastModification
      ensures size == defaultTileSize == old(defaultTileSize)
      ensures Poll() == if defaultTileSizeOverride then old(Poll()) else Reload(old(Poll()), now, mtime)
      ensures parsed == (!defaultTileSizeOverride && ReloadParses(old(Poll()), now, mtime))
    {
      parsed := ReloadUnlessOverridden(defaultTileSizeOverride, now, mtime);
      size := defaultTileSize;
    }

    method SetDefaultTileSize(num: Uint32)
      modifies this`defaultTileSize, this`defaultTileSizeOverride
      ensures CurrentValues() == old(CurrentValues()).(defaultTileSize := num)
      ensures CurrentOverrides() == old(CurrentOverrides()).(defaultTileSize := true)
    {
      defaultTileSizeOverride := true;
      defaultTileSize := num;
    }

    method GetTmpDirectory(now: int, mtime: Option<int>) returns (path: string, parsed: bool)
      modifies this`rcLastPolltime, this`rcLastModification
      ensures path == tmpDirectory == old(tmpDirectory)
      ensures Poll() == if tmpDirectoryOverride then old(Poll()) else Reload(old(Poll()), now, mtime)
      ensures parsed == (!tmpDirectoryOverride && ReloadParses(old(Poll()), now, mtime))
    {
      parsed := ReloadUnlessOverridden(tmpDirectoryOverride, now, mtime);
      path := tmpDirectory;
    }

    method SetTmpDirectory(path: string)
      modifies this`tmpDirectory, this`tmpDirectoryOverride
      ensures CurrentValues() == old(CurrentValues()).(tmpDirectory := path)
      ensures CurrentOverrides() == old(CurrentOverrides()).(tmpDirectory := true)
    {
      tmpDirectoryOverride := true;
      tmpDirectory := path;
    }

    /** Switches the rc file (an empty name disables it) and consults it. */
    method SetRcFilename(filename: string, now: int, mtime: Option<int>) returns (parsed: bool)
      modifies this`rcFilename, this`rcLastPolltime, this`rcLastModification
      ensures Poll() == Reload(Renamed(old(Poll()), filename), now, mtime)
      ensures parsed == ReloadParses(Renamed(old(Poll()), filename), now, mtime)
    {
      if filename != rcFilename {
        if filename == "" {
          rcLastPolltime := LongMax;
          rcLastModification := LongMax;
        } else {
          rcLastPolltime := 0;
          rcLastModification := 0;
        }
        rcFilename := filename;
      }
      parsed := ReloadConfig(now, mtime);
    }

    /** Changes how often the rc file is polled, forgets the last poll and
        consults the file. */
    method SetRcPollPeriod(period: real, now: int, mtime: Option<int>) returns (parsed: bool)
      modifies this`rcPollPeriod, this`rcLastPolltime, this`rcLastModification
      ensures Poll() == Reload(Repolled(old(Poll()), period), now, mtime)
      ensures parsed == ReloadParses(Repolled(old(Poll()), period), now, mtime)
    {
      rcPollPeriod := period;
      rcLastPolltime := 0;
      parsed := ReloadConfig(now, mtime);
    }
  }

  /** A setter's value is what the matching getter then returns, and the getter
      does not consult the rc file. */
  method SetThenGetWritePoolSize(s: Settings, size: Uint32, now: int, mtime: Option<int>) returns (got: Uint32)
    modifies s
    ensures got == size
    ensures s.Poll() == old(s.Poll())
  {
    s.SetWritePoolSize(size);
    var parsed;
    got, parsed := s.GetWritePoolSize(now, mtime);
  }
}
