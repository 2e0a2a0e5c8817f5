/**
 * The agent's persistent state and the upload queue, as values: the state
 * file and how it is loaded with defaults, the queue entry built for each
 * candidate, and how a batch of entries is merged into the queue without
 * repeating a file, with the running total and the per-day counter.
 */
module Queue {
  import opened Wrappers
  import opened Bytes
  import opened Text
  import opened Dates
  import opened Files
  import opened Discovery
  import opened DiscoveryProps

  const CollectionPrefix: string := "cheese-collection/"

  /** One pending upload, as the agent writes it for the uploader. */
  datatype QueueEntry = QueueEntry(filePath: string, publicId: string, tags: string, context: string)

  /**
   * The agent state: the three keys the agent uses, and every other key of
   * the loaded JSON object kept as its JSON text. The per-day bucket is the
   * `scraped` count of that date.
   */
  datatype AgentState = AgentState(
    totalImagesScraped: int,
    pendingUploads: seq<QueueEntry>,
    dailyStats: map<string, int>,
    extra: map<string, string>)

  /** A JSON object read from the state file: each of the three keys may be missing. */
  datatype StoredState = StoredState(
    total: Option<int>,
    pending: Option<seq<QueueEntry>>,
    daily: Option<map<string, int>>,
    extra: map<string, string>)

  /** The state file when it exists: unreadable (not JSON, not an object) or a stored object. */
  datatype StateFile = Unreadable | Readable(stored: StoredState)

  function DefaultState(): AgentState
  {
    AgentState(0, [], map[], map[])
  }

  /**
   * `load_agent_state()` for a state file that is absent (`None`), unreadable
   * or readable: the defaults, unless the file reads as an object, in which
   * case each missing key takes its default and everything else is kept.
   */
  function LoadState(file: Option<StateFile>): (s: AgentState)
    ensures file.None? || file.value.Unreadable? ==> s == DefaultState()
    ensures file.Some? && file.value.Readable? ==>
              && s.extra == file.value.stored.extra
              && (file.value.stored.total.Some? ==> s.totalImagesScraped == file.value.stored.total.value)
              && (file.value.stored.total.None? ==> s.totalImagesScraped == 0)
              && (file.value.stored.pending.Some? ==> s.pendingUploads == file.value.stored.pending.value)
              && (file.value.stored.pending.None? ==> s.pendingUploads == [])
              && (file.value.stored.daily.Some? ==> s.dailyStats == file.value.stored.daily.value)
              && (file.value.stored.daily.None? ==> s.dailyStats == map[])
  {
    match file
    case None => DefaultState()
    case Some(Unreadable) => DefaultState()
    case Some(Readable(st)) =>
      AgentState(
        if st.total.Some? then st.total.value else 0,
        if st.pending.Some? then st.pending.value else [],
        if st.daily.Some? then st.daily.value else map[],
        st.extra)
  }

  /** `json.dump(self.state)`: every key is written. */
  function Store(s: AgentState): StoredState
  {
    StoredState(Some(s.totalImagesScraped), Some(s.pendingUploads), Some(s.dailyStats), s.extra)
  }

  /** What is saved is what is loaded next time. */
  lemma LoadStore(s: AgentState)
    ensures LoadState(Some(Readable(Store(s)))) == s
  {
  }

  /** `'|'.join(f'{k}={v}' for k, v in context.items())` */
  function ContextString(context: seq<(string, string)>): string
  {
    Join("|", seq(|context|, i requires 0 <= i < |context| => context[i].0 + "=" + context[i].1))
  }

  /**
   * The queue entry for a candidate whose file holds `bytes`: the resolved
   * path as a `file://` URL, the public id from the file's stem and the first
   * eight hex digits of the MD5 of its bytes, and the tags and context
   * flattened to strings.
   */
  function MakeEntry(c: Candidate, bytes: seq<Byte>, md5: seq<Byte> -> string, resolve: Path -> string): QueueEntry
  {
    QueueEntry(
      "file://" + resolve(c.filePath),
      CollectionPrefix + Stem(c.filePath) + "_" + SliceTo(md5(bytes), 8),
      Join(",", c.metadata.tags),
      ContextString(c.metadata.context))
  }

  /**
   * The entries for all candidates, in order, or `None` when some candidate's
   * file cannot be read (where `read_bytes` raises and the run is abandoned).
   */
  function PendingList(cands: seq<Candidate>, files: map<Path, seq<Byte>>, md5: seq<Byte> -> string,
                       resolve: Path -> string): (r: Option<seq<QueueEntry>>)
    ensures r.Some? <==> forall c :: c in cands ==> c.filePath in files
    ensures r.Some? ==> |r.value| == |cands|
    ensures r.Some? ==> forall i :: 0 <= i < |cands| ==>
              r.value[i] == MakeEntry(cands[i], files[cands[i].filePath], md5, resolve)
  {
    if forall i :: 0 <= i < |cands| ==> cands[i].filePath in files then
      Some(seq(|cands|, i requires 0 <= i < |cands| => MakeEntry(cands[i], files[cands[i].filePath], md5, resolve)))
    else None
  }

  /** The file paths of the queue, in order. */
  function Paths(q: seq<QueueEntry>): (r: seq<string>)
    ensures |r| == |q|
    ensures forall i :: 0 <= i < |q| ==> r[i] == q[i].filePath
  {
    seq(|q|, i requires 0 <= i < |q| => q[i].filePath)
  }

  /** `{p['file_path'] for p in queue}` */
  function PathSet(q: seq<QueueEntry>): (r: set<string>)
    ensures forall p :: p in r <==> exists i :: 0 <= i < |q| && q[i].filePath == p
  {
    set i | 0 <= i < |q| :: q[i].filePath
  }

  lemma PathSetAppend(a: seq<QueueEntry>, b: seq<QueueEntry>)
    ensures PathSet(a + b) == PathSet(a) + PathSet(b)
  {
    forall p | p in PathSet(a) + PathSet(b) ensures p in PathSet(a + b) {
      if p in PathSet(a) {
        var i :| 0 <= i < |a| && a[i].filePath == p;
        assert (a + b)[i] == a[i];
      } else {
        var i :| 0 <= i < |b| && b[i].filePath == p;
        assert (a + b)[|a| + i] == b[i];
      }
    }
  }

  /**
   * The entries of `batch` the merge loop appends: those whose path is
   * neither in `existing` nor taken by an earlier entry of the batch.
   */
  function NewEntries(existing: set<string>, batch: seq<QueueEntry>): seq<QueueEntry>
  {
    if batch == [] then []
    else
      var earlier := NewEntries(existing, batch[..|batch| - 1]);
      var e := batch[|batch| - 1];
      if e.filePath in existing || e.filePath in PathSet(earlier) then earlier else earlier + [e]
  }

  /**
   * What the merge loop appends: entries of the batch with fresh, distinct
   * paths, and between them and the existing paths every path of the batch.
   */
  lemma {:induction false} NewEntriesSound(existing: set<string>, batch: seq<QueueEntry>)
    ensures var r := NewEntries(existing, batch);
            && NoDuplicates(Paths(r))
            && (forall i :: 0 <= i < |r| ==> r[i] in batch && r[i].filePath !in existing)
            && (forall e :: e in batch ==> e.filePath in existing || e.filePath in PathSet(r))
  {
    if batch != [] {
      var n := |batch| - 1;
      var earlier := NewEntries(existing, batch[..n]);
      var e := batch[n];
      NewEntriesSound(existing, batch[..n]);
      assert batch == batch[..n] + [e];
      if !(e.filePath in existing || e.filePath in PathSet(earlier)) {
        var r := earlier + [e];
        assert forall i :: 0 <= i < |earlier| ==> r[i] == earlier[i];
        assert r[|earlier|] == e;
        assert NoDuplicates(Paths(r)) by {
          forall i, j | 0 <= i < j < |r| ensures Paths(r)[i] != Paths(r)[j] {
            if j == |earlier| {
              assert earlier[i].filePath in PathSet(earlier);
            } else {
              assert Paths(earlier)[i] != Paths(earlier)[j];
            }
          }
        }
        PathSetAppend(earlier, [e]);
        assert e.filePath in PathSet([e]) by {
          assert [e][0].filePath == e.filePath;
        }
      }
    }
  }

  /** One more entry in the batch: it is appended exactly when its path is still new. */
  lemma NewEntriesSnoc(existing: set<string>, batch: seq<QueueEntry>, e: QueueEntry)
    ensures var earlier := NewEntries(existing, batch);
            NewEntries(existing, batch + [e])
            == if e.filePath in existing || e.filePath in PathSet(earlier) then earlier else earlier + [e]
  {
    assert (batch + [e])[..|batch|] == batch;
  }

  /**
   * One step of the merge loop, over `seen`, the paths queued so far: an
   * entry with an unseen path is appended and its path becomes seen; any
   * other entry changes nothing.
   */
  lemma NewEntriesStep(existing: set<string>, batch: seq<QueueEntry>, e: QueueEntry, seen: set<string>)
    requires seen == existing + PathSet(NewEntries(existing, batch))
    ensures e.filePath !in seen ==>
              && NewEntries(existing, batch + [e]) == NewEntries(existing, batch) + [e]
              && existing + PathSet(NewEntries(existing, batch + [e])) == seen + {e.filePath}
    ensures e.filePath in seen ==> NewEntries(existing, batch + [e]) == NewEntries(existing, batch)
  {
    NewEntriesSnoc(existing, batch, e);
    var earlier := NewEntries(existing, batch);
    PathSetAppend(earlier, [e]);
    assert PathSet([e]) == {e.filePath} by {
      assert [e][0].filePath == e.filePath;
    }
  }

  /** `daily_stats[today]['scraped']`, taken as 0 for a day with no bucket yet. */
  function ScrapedOn(daily: map<string, int>, day: string): int
  {
    if day in daily then daily[day] else 0
  }

  /**
   * The state after a batch is merged: new entries appended to the queue,
   * their number added to the total and to today's bucket.
   */
  function Merge(s: AgentState, batch: seq<QueueEntry>, today: string): AgentState
  {
    var added := NewEntries(PathSet(s.pendingUploads), batch);
    AgentState(
      s.totalImagesScraped + |added|,
      s.pendingUploads + added,
      s.dailyStats[today := ScrapedOn(s.dailyStats, today) + |added|],
      s.extra)
  }

  /** The queue after the merge: every path of the batch is in it, nothing foreign, no path twice. */
  lemma AppendNewProps(q: seq<QueueEntry>, batch: seq<QueueEntry>)
    ensures var r := q + NewEntries(PathSet(q), batch);
            && (forall e :: e in batch ==> e.filePath in PathSet(r))
            && (forall e :: e in r ==> e in q || e in batch)
            && (NoDuplicates(Paths(q)) ==> NoDuplicates(Paths(r)))
  {
    var added := NewEntries(PathSet(q), batch);
    var r := q + added;
    NewEntriesSound(PathSet(q), batch);
    PathSetAppend(q, added);
    forall e | e in r ensures e in q || e in batch {
      var i :| 0 <= i < |r| && r[i] == e;
      if i >= |q| {
        assert e == added[i - |q|];
      }
    }
    if NoDuplicates(Paths(q)) {
      forall i, j | 0 <= i < j < |r| ensures Paths(r)[i] != Paths(r)[j] {
        if j < |q| {
          assert Paths(q)[i] != Paths(q)[j];
        } else if i >= |q| {
          assert Paths(added)[i - |q|] != Paths(added)[j - |q|];
        } else {
          assert q[i].filePath in PathSet(q);
          assert r[j] == added[j - |q|];
        }
      }
    }
  }

  /**
   * The merge only appends to the queue; the total and today's count grow
   * by the number appended and no other day changes; afterwards every path
   * of the batch is queued, every queued entry was queued before or comes
   * from the batch, and queued paths stay distinct.
   */
  lemma MergeProps(s: AgentState, batch: seq<QueueEntry>, today: string)
    ensures var r := Merge(s, batch, today);
            && s.pendingUploads <= r.pendingUploads
            && r.totalImagesScraped - s.totalImagesScraped
               == ScrapedOn(r.dailyStats, today) - ScrapedOn(s.dailyStats, today)
               == |r.pendingUploads| - |s.pendingUploads|
               >= 0
            && today in r.dailyStats && r.dailyStats.Keys == s.dailyStats.Keys + {today}
            && (forall day :: day != today ==> ScrapedOn(r.dailyStats, day) == ScrapedOn(s.dailyStats, day))
            && (forall e :: e in batch ==> e.filePath in PathSet(r.pendingUploads))
            && (forall e :: e in r.pendingUploads ==> e in s.pendingUploads || e in batch)
            && (NoDuplicates(Paths(s.pendingUploads)) ==> NoDuplicates(Paths(r.pendingUploads)))
            && r.extra == s.extra
  {
    AppendNewProps(s.pendingUploads, batch);
  }

  /**
   * The state a run leaves for candidates `cands` over the files `files`:
   * unchanged when there are none or one of their files cannot be read,
   * and otherwise the merge of their entries.
   */
  function RunOutcome(s: AgentState, cands: seq<Candidate>, files: map<Path, seq<Byte>>,
                      md5: seq<Byte> -> string, resolve: Path -> string, today: Date): AgentState
    requires Valid(today)
  {
    if cands == [] then s
    else
      match PendingList(cands, files, md5, resolve)
      case None => s
      case Some(batch) => Merge(s, batch, IsoFormat(today))
  }

  // ---------------------------------------------------------------------
  // Properties of the merge

  /** Each appended entry is the first of the batch with its path, and they keep the batch's order. */
  predicate FirstOfEachPath(batch: seq<QueueEntry>, r: seq<QueueEntry>) {
    && (forall i :: 0 <= i < |r| ==>
          FirstIndexOf(Paths(batch), r[i].filePath) < |batch| && r[i] == batch[FirstIndexOf(Paths(batch), r[i].filePath)])
    && (forall i, j :: 0 <= i < j < |r| ==>
          FirstIndexOf(Paths(batch), r[i].filePath) < FirstIndexOf(Paths(batch), r[j].filePath))
  }

  lemma FirstPathExtends(batch: seq<QueueEntry>, r: seq<QueueEntry>)
    requires batch != []
    requires FirstOfEachPath(batch[..|batch| - 1], r)
    ensures FirstOfEachPath(batch, r)
  {
    var n := |batch| - 1;
    assert Paths(batch[..n]) == Paths(batch)[..n];
    forall i | 0 <= i < |r|
      ensures FirstIndexOf(Paths(batch), r[i].filePath) == FirstIndexOf(Paths(batch[..n]), r[i].filePath)
    {
      FirstIndexInPrefix(Paths(batch), n, r[i].filePath);
    }
  }

  lemma FirstPathAppend(batch: seq<QueueEntry>, r: seq<QueueEntry>)
    requires batch != []
    requires FirstOfEachPath(batch, r)
    requires forall i :: 0 <= i < |r| ==> FirstIndexOf(Paths(batch), r[i].filePath) < |batch| - 1
    requires batch[|batch| - 1].filePath !in Paths(batch[..|batch| - 1])
    ensures FirstOfEachPath(batch, r + [batch[|batch| - 1]])
  {
    var n := |batch| - 1;
    var e := batch[n];
    assert Paths(batch[..n]) == Paths(batch)[..n];
    FirstIndexAfterPrefix(Paths(batch), n, e.filePath);
    var r' := r + [e];
    forall i, j | 0 <= i < j < |r'|
      ensures FirstIndexOf(Paths(batch), r'[i].filePath) < FirstIndexOf(Paths(batch), r'[j].filePath)
    {
      assert r'[i] == r[i];
      if j < |r| {
        assert r'[j] == r[j];
      }
    }
  }

  /**
   * The merge loop appends, for each new path, the first entry of the batch
   * that carries it, in batch order.
   */
  lemma {:induction false} NewEntriesFirst(existing: set<string>, batch: seq<QueueEntry>)
    ensures FirstOfEachPath(batch, NewEntries(existing, batch))
  {
    if batch != [] {
      var n := |batch| - 1;
      var earlier := NewEntries(existing, batch[..n]);
      var e := batch[n];
      NewEntriesFirst(existing, batch[..n]);
      NewEntriesSound(existing, batch[..n]);
      FirstPathExtends(batch, earlier);
      if !(e.filePath in existing || e.filePath in PathSet(earlier)) {
        assert Paths(batch[..n]) == Paths(batch)[..n];
        forall i | 0 <= i < |earlier| ensures FirstIndexOf(Paths(batch), earlier[i].filePath) < n {
          FirstIndexInPrefix(Paths(batch), n, earlier[i].filePath);
        }
        assert e.filePath !in Paths(batch[..n]) by {
          forall k | 0 <= k < n ensures batch[..n][k].filePath != e.filePath {
            var b := batch[..n][k];
            assert b in batch[..n];
            if b.filePath !in existing {
              assert b.filePath in PathSet(earlier);
            }
          }
        }
        FirstPathAppend(batch, earlier);
      }
    }
  }

  /** A batch of fresh, distinct paths is appended whole. */
  lemma {:induction false} NewEntriesFresh(existing: set<string>, batch: seq<QueueEntry>)
    requires NoDuplicates(Paths(batch))
    requires forall e :: e in batch ==> e.filePath !in existing
    ensures NewEntries(existing, batch) == batch
  {
    if batch != [] {
      var n := |batch| - 1;
      assert Paths(batch[..n]) == Paths(batch)[..n];
      NewEntriesFresh(existing, batch[..n]);
      assert batch[n].filePath !in PathSet(batch[..n]) by {
        forall k | 0 <= k < n ensures batch[..n][k].filePath != batch[n].filePath {
          assert Paths(batch)[k] != Paths(batch)[n];
        }
      }
      assert batch[..n] + [batch[n]] == batch;
    }
  }

  /** A batch whose every path is already queued adds nothing. */
  lemma {:induction false} NewEntriesKnown(existing: set<string>, batch: seq<QueueEntry>)
    requires forall e :: e in batch ==> e.filePath in existing
    ensures NewEntries(existing, batch) == []
  {
    if batch != [] {
      var n := |batch| - 1;
      assert forall e :: e in batch[..n] ==> e in batch;
      NewEntriesKnown(existing, batch[..n]);
      assert batch[n] in batch;
    }
  }

  lemma UpdateSame(m: map<string, int>, k: string)
    requires k in m
    ensures m[k := m[k]] == m
  {
  }

  /** Merging the same batch again changes nothing: the queue, the total and the day's count stay. */
  lemma MergeIdempotent(s: AgentState, batch: seq<QueueEntry>, today: string)
    ensures Merge(Merge(s, batch, today), batch, today) == Merge(s, batch, today)
  {
    var once := Merge(s, batch, today);
    MergeProps(s, batch, today);
    NewEntriesKnown(PathSet(once.pendingUploads), batch);
    UpdateSame(once.dailyStats, today);
    assert once.pendingUploads + [] == once.pendingUploads;
  }

  /** Two runs over the same candidates and files leave the state of one run. */
  lemma RunTwice(s: AgentState, cands: seq<Candidate>, files: map<Path, seq<Byte>>,
                 md5: seq<Byte> -> string, resolve: Path -> string, today: Date)
    requires Valid(today)
    ensures RunOutcome(RunOutcome(s, cands, files, md5, resolve, today), cands, files, md5, resolve, today)
         == RunOutcome(s, cands, files, md5, resolve, today)
  {
    var pending := PendingList(cands, files, md5, resolve);
    if cands != [] && pending.Some? {
      MergeIdempotent(s, pending.value, IsoFormat(today));
    }
  }

  /**
   * With no path already queued and distinct paths in the batch, every
   * entry is appended, and the total and the day's count grow by the batch
   * size.
   */
  lemma MergeFresh(s: AgentState, batch: seq<QueueEntry>, today: string)
    requires NoDuplicates(Paths(batch))
    requires forall e :: e in batch ==> e.filePath !in PathSet(s.pendingUploads)
    ensures var r := Merge(s, batch, today);
            && r.pendingUploads == s.pendingUploads + batch
            && r.totalImagesScraped == s.totalImagesScraped + |batch|
            && ScrapedOn(r.dailyStats, today) == ScrapedOn(s.dailyStats, today) + |batch|
  {
    NewEntriesFresh(PathSet(s.pendingUploads), batch);
  }

  // ---------------------------------------------------------------------
  // The entry of a discovered candidate

  lemma TagsOf(cheeseType: string)
    ensures Join(",", ["cheese", cheeseType]) == "cheese," + cheeseType
  {
    assert ["cheese", cheeseType][1..] == [cheeseType];
  }

  /** The joined context as one literal, proved on its own where the context is small. */
  lemma ContextJoined(date: string)
    ensures "source=google-images" + "|" + ("license=creative-commons" + "|" + ("scrape_date=" + date))
         == "source=google-images|license=creative-commons|scrape_date=" + date
  {
  }

  lemma ContextOf(date: string)
    ensures ContextString([("source", "google-images"), ("license", "creative-commons"), ("scrape_date", date)])
         == "source=google-images|license=creative-commons|scrape_date=" + date
  {
    var context := [("source", "google-images"), ("license", "creative-commons"), ("scrape_date", date)];
    var pieces := ["source=google-images", "license=creative-commons", "scrape_date=" + date];
    assert "source" + "=" + "google-images" == pieces[0];
    assert "license" + "=" + "creative-commons" == pieces[1];
    assert "scrape_date" + "=" + date == pieces[2];
    var joined := seq(|context|, i requires 0 <= i < |context| => context[i].0 + "=" + context[i].1);
    assert joined[0] == pieces[0] && joined[1] == pieces[1] && joined[2] == pieces[2];
    assert joined == pieces;
    assert pieces[1..][1..] == [pieces[2]];
    assert Join("|", pieces[1..]) == pieces[1] + "|" + pieces[2];
    ContextJoined(date);
  }

  /** The stem of a candidate's file is its id without `.jpg`. */
  lemma StemOfCandidate(c: Candidate, cheeseType: string, payload: string, md5: seq<Byte> -> string, today: Date)
    requires Valid(today) && MadeFrom(c, cheeseType, payload, md5, today)
    requires '/' !in cheeseType && '/' !in PayloadHash(md5, payload)
    ensures Stem(c.filePath) == Slug(cheeseType) + "_" + PayloadHash(md5, payload)
  {
    var base := Slug(cheeseType) + "_" + PayloadHash(md5, payload);
    assert '/' !in Slug(cheeseType) by {
      forall k | 0 <= k < |cheeseType| ensures Slug(cheeseType)[k] != '/' {
        assert cheeseType[k] != '/';
      }
    }
    assert c.id == base + ".jpg";
    StemOfJpg(OutputDir, base);
  }

  /** The tags and context `analyze_image_content` gives, as the queue entry writes them. */
  lemma LabelsOf(filePath: Path, cheeseType: string, today: Date)
    requires Valid(today)
    ensures var m := AnalyzeImageContent(filePath, cheeseType, today);
            && Join(",", m.tags) == "cheese," + cheeseType
            && ContextString(m.context) == "source=google-images|license=creative-commons|scrape_date=" + IsoFormat(today)
  {
    TagsOf(cheeseType);
    ContextOf(IsoFormat(today));
  }

  /**
   * The queue entry of a candidate that discovery made from `payload`:
   * tagged `cheese,<type>`, with the fixed source and licence and the scrape
   * date as context, and with public id `cheese-collection/<slug>_<hash10>_<hash8>`,
   * the second hash being that of the file's bytes.
   */
  lemma EntryOfCandidate(c: Candidate, cheeseType: string, payload: string, bytes: seq<Byte>,
                         md5: seq<Byte> -> string, resolve: Path -> string, today: Date)
    requires Valid(today) && MadeFrom(c, cheeseType, payload, md5, today)
    requires '/' !in cheeseType && '/' !in PayloadHash(md5, payload)
    ensures var e := MakeEntry(c, bytes, md5, resolve);
            && e.filePath == "file://" + resolve(JoinPath(OutputDir, c.id))
            && e.publicId == CollectionPrefix + Slug(cheeseType) + "_" + PayloadHash(md5, payload) + "_" + SliceTo(md5(bytes), 8)
            && e.tags == "cheese," + cheeseType
            && e.context == "source=google-images|license=creative-commons|scrape_date=" + IsoFormat(today)
  {
    StemOfCandidate(c, cheeseType, payload, md5, today);
    var base := Slug(cheeseType) + "_" + PayloadHash(md5, payload);
    assert CollectionPrefix + base == CollectionPrefix + Slug(cheeseType) + "_" + PayloadHash(md5, payload);
    LabelsOf(c.filePath, cheeseType, today);
  }
}
