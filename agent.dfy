/**
 * The `CheeseScrapingAgent` object: its state loaded from the state file
 * when it is built, and its `run`, which discovers candidates with the
 * scraper, turns them into queue entries, merges them into the pending
 * queue with the counters, and writes the state back.
 *
 * The state file is a field: `None` while it does not exist, otherwise
 * what it holds. The clock is the `today` parameter, and resolving a path
 * to an absolute one is the `resolve` parameter.
 */
module Agent {
  import opened Wrappers
  import opened Bytes
  import opened Text
  import opened Dates
  import opened Files
  import opened Discovery
  import opened Queue
  import opened Scraper

  class CheeseScrapingAgent {
    /** `None` when the scraper failed to initialise. */
    const scraper: CheeseScraper?
    const dailyTarget: int
    var state: AgentState
    var stateFile: Option<StateFile>

    /** `CheeseScrapingAgent()`: load the state, with the scraper that was (or was not) built. */
    constructor (stateFile: Option<StateFile>, scraper: CheeseScraper?)
      ensures this.stateFile == stateFile && this.scraper == scraper && dailyTarget == 10
      ensures state == LoadState(stateFile)
    {
      this.scraper := scraper;
      this.stateFile := stateFile;
      dailyTarget := 10;
      new;
      state := LoadAgentState();
    }

    /**
     * `load_agent_state()`: the defaults when the file is missing or cannot
     * be read as an object; otherwise the object, with each missing key set
     * to its default.
     */
    method LoadAgentState() returns (r: AgentState)
      ensures r == LoadState(stateFile)
    {
      var defaults := DefaultState();
      if stateFile.None? || stateFile.value.Unreadable? {
        return defaults;
      }
      var stored := stateFile.value.stored;
      r := AgentState(defaults.totalImagesScraped, defaults.pendingUploads, defaults.dailyStats, stored.extra);
      if stored.total.Some? {
        r := r.(totalImagesScraped := stored.total.value);
      }
      if stored.pending.Some? {
        r := r.(pendingUploads := stored.pending.value);
      }
      if stored.daily.Some? {
        r := r.(dailyStats := stored.daily.value);
      }
    }

    /** `save_agent_state()`: the whole state is written to the file. */
    method SaveAgentState()
      modifies this`stateFile
      ensures stateFile == Some(Readable(Store(state)))
    {
      stateFile := Some(Readable(Store(state)));
    }

    /**
     * `run()`. Without a scraper nothing happens and nothing is saved.
     * Otherwise the state becomes `RunOutcome` of the candidates discovery
     * returns over the files it leaves, and that state is saved, also when
     * there were no candidates or a file could not be read.
     */
    method Run(env: Env, resolve: Path -> string, today: Date)
      requires Valid(today)
      modifies this`state, this`stateFile, if scraper != null then {scraper.disk} else {}
      ensures scraper == null ==> state == old(state) && stateFile == old(stateFile)
      ensures scraper != null ==>
                var found := Discover(scraper.cheeseTypes, dailyTarget, env, today, old(scraper.disk.files));
                && scraper.disk.files == found.files
                && state == RunOutcome(old(state), found.found, found.files, env.md5, resolve, today)
                && stateFile == Some(Readable(Store(state)))
    {
      if scraper == null {
        return;
      }
      var todayStr := IsoFormat(today);
      var candidates := scraper.FindAndDownloadCandidates(dailyTarget, env, today);
      if candidates == [] {
        SaveAgentState();
        return;
      }

      var pendingList := BuildPendingList(candidates, env.md5, resolve);
      if pendingList.None? {
        SaveAgentState();
        return;
      }
      AddToQueue(pendingList.value, todayStr);
      SaveAgentState();
    }

    /**
     * The first loop of `run()`: one queue entry per candidate, in order,
     * from the bytes of its file; `None` when a file cannot be read, where
     * `read_bytes` raises and the rest of the run is skipped.
     */
    method BuildPendingList(candidates: seq<Candidate>, md5: seq<Byte> -> string, resolve: Path -> string)
      returns (r: Option<seq<QueueEntry>>)
      requires scraper != null
      ensures r == PendingList(candidates, scraper.disk.files, md5, resolve)
    {
      var disk := scraper.disk;
      var pendingList: seq<QueueEntry> := [];
      var i := 0;
      while i < |candidates|
        invariant 0 <= i <= |candidates|
        invariant forall k :: 0 <= k < i ==> candidates[k].filePath in disk.files
        invariant |pendingList| == i
        invariant forall k :: 0 <= k < i ==>
                    pendingList[k] == MakeEntry(candidates[k], disk.files[candidates[k].filePath], md5, resolve)
      {
        var filePath := candidates[i].filePath;
        var bytes := disk.ReadBytes(filePath);
        if bytes.None? {
          assert candidates[i] in candidates && candidates[i].filePath !in disk.files;
          return None;
        }
        var fileHash := SliceTo(md5(bytes.value), 8);
        var publicId := CollectionPrefix + Stem(filePath) + "_" + fileHash;
        var contextStr := ContextString(candidates[i].metadata.context);
        var entry := QueueEntry("file://" + resolve(filePath), publicId, Join(",", candidates[i].metadata.tags), contextStr);
        pendingList := pendingList + [entry];
        i := i + 1;
      }
      assert forall c :: c in candidates ==> c.filePath in disk.files by {
        forall c | c in candidates
          ensures c.filePath in disk.files
        {
          var k :| 0 <= k < |candidates| && candidates[k] == c;
        }
      }
      assert PendingList(candidates, disk.files, md5, resolve).value == pendingList;
      r := Some(pendingList);
    }

    /**
     * The second half of `run()`: append the new entries, then add their
     * number to the total and to today's bucket, creating the bucket if
     * needed.
     */
    method AddToQueue(pendingList: seq<QueueEntry>, todayStr: string)
      modifies this`state
      ensures state == Merge(old(state), pendingList, todayStr)
    {
      ghost var before := state;
      ghost var added := NewEntries(PathSet(state.pendingUploads), pendingList);
      var newCandidatesAdded := AppendNewEntries(pendingList);
      state := state.(totalImagesScraped := state.totalImagesScraped + newCandidatesAdded);
      if todayStr !in state.dailyStats {
        state := state.(dailyStats := state.dailyStats[todayStr := 0]);
      }
      state := state.(dailyStats := state.dailyStats[todayStr := state.dailyStats[todayStr] + newCandidatesAdded]);
      assert state == AgentState(before.totalImagesScraped + |added|, before.pendingUploads + added,
                                 before.dailyStats[todayStr := ScrapedOn(before.dailyStats, todayStr) + |added|],
                                 before.extra);
    }

    /**
     * The append loop of `run()`: each entry whose path is neither queued
     * nor appended earlier in the batch goes to the end of the queue; the
     * result is how many did.
     */
    method AppendNewEntries(pendingList: seq<QueueEntry>) returns (newCandidatesAdded: int)
      modifies this`state
      ensures var added := NewEntries(PathSet(old(state).pendingUploads), pendingList);
              && state == old(state).(pendingUploads := old(state).pendingUploads + added)
              && newCandidatesAdded == |added|
    {
      ghost var known := PathSet(state.pendingUploads);
      var existingPaths := PathSet(state.pendingUploads);
      newCandidatesAdded := 0;
      var j := 0;
      while j < |pendingList|
        invariant 0 <= j <= |pendingList|
        invariant state == old(state).(pendingUploads := old(state).pendingUploads + NewEntries(known, pendingList[..j]))
        invariant existingPaths == known + PathSet(NewEntries(known, pendingList[..j]))
        invariant newCandidatesAdded == |NewEntries(known, pendingList[..j])|
      {
        var item := pendingList[j];
        assert pendingList[..j + 1] == pendingList[..j] + [item];
        NewEntriesStep(known, pendingList[..j], item, existingPaths);
        if item.filePath !in existingPaths {
          state := state.(pendingUploads := state.pendingUploads + [item]);
          existingPaths := existingPaths + {item.filePath};
          newCandidatesAdded := newCandidatesAdded + 1;
        }
        j := j + 1;
      }
      assert pendingList[..j] == pendingList;
    }
  }
}
