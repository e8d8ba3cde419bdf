/**
 * scripts/guardian_loop.py: every tick, rebuild the playlist from the stream database
 * (newest live candidate per channel, or the newest one marked dead) and rewrite
 * `master.m3u` only when the rebuilt lines differ from the lines read back from it.
 */
module GuardianLoop {
  import opened Wrappers
  import opened Text
  import opened Streams

  const Header: string := "#EXTM3U"
  const NoStreamsNote: string := "# No streams. Add Xtream via Telegram."
  const LoadErrorNote: string := "# Error loading streams.json"
  const DeadMarker: string := " \U{274C}"
  const ExtInfPrefix: string := "#EXTINF:-1 group-title=\""

  // ---------------------------------------------------------------- liveness

  /** `is_stream_alive`: a HEAD status of 200, 206, 301, 302 or 403 is alive (403 with no
    * ranged GET fallback); an exception is dead. */
  function IsStreamAlive(head: Option<int>): (alive: bool)
    ensures alive <==> head.Some? && head.value in {200, 206, 301, 302, 403}
  {
    match head
    case None => false
    case Some(status) => status == 200 || status == 206 || status == 301 || status == 302 || status == 403
  }

  predicate Alive(probe: Prober, c: Candidate) {
    IsStreamAlive(probe(c.url))
  }

  // ---------------------------------------------------------------- newest first

  /** The sort key `x.get("added_at", "")`. */
  function AddedKey(c: Candidate): string {
    c.addedAt.GetOr("")
  }

  /** No candidate is newer than one before it. */
  predicate NewestFirstOrdered(s: seq<Candidate>) {
    forall i, j :: 0 <= i < j < |s| ==> !Less(AddedKey(s[i]), AddedKey(s[j]))
  }

  /** Put `c` in front of the first candidate that is not newer than it. */
  function InsertNewestFirst(c: Candidate, sorted: seq<Candidate>): (r: seq<Candidate>)
    ensures |r| == |sorted| + 1
  {
    if sorted == [] || !Less(AddedKey(c), AddedKey(sorted[0])) then [c] + sorted
    else
      assert sorted == [sorted[0]] + sorted[1..];
      [sorted[0]] + InsertNewestFirst(c, sorted[1..])
  }

  /** `candidates.sort(key=lambda x: x.get("added_at", ""), reverse=True)`: Python's sort
    * is stable also when reversed, so candidates with equal keys keep their order. */
  function NewestFirst(s: seq<Candidate>): (r: seq<Candidate>)
    ensures |r| == |s|
  {
    if s == [] then [] else InsertNewestFirst(s[0], NewestFirst(s[1..]))
  }

  /** Inserting adds exactly `c`. */
  lemma {:induction false} InsertPermutes(c: Candidate, sorted: seq<Candidate>)
    ensures multiset(InsertNewestFirst(c, sorted)) == multiset(sorted) + multiset{c}
  {
    if sorted != [] && Less(AddedKey(c), AddedKey(sorted[0])) {
      assert sorted == [sorted[0]] + sorted[1..];
      InsertPermutes(c, sorted[1..]);
    }
  }

  /** The sort is a permutation: it loses, adds and duplicates no candidate. */
  lemma {:induction false} NewestFirstPermutes(s: seq<Candidate>)
    ensures multiset(NewestFirst(s)) == multiset(s)
  {
    if s != [] {
      assert s == [s[0]] + s[1..];
      NewestFirstPermutes(s[1..]);
      InsertPermutes(s[0], NewestFirst(s[1..]));
    }
  }

  lemma {:induction false} InsertKeepsOrder(c: Candidate, sorted: seq<Candidate>)
    requires NewestFirstOrdered(sorted)
    ensures NewestFirstOrdered(InsertNewestFirst(c, sorted))
  {
    var r := InsertNewestFirst(c, sorted);
    if sorted == [] || !Less(AddedKey(c), AddedKey(sorted[0])) {
      forall j | 1 <= j < |r|
        ensures !Less(AddedKey(c), AddedKey(r[j]))
      {
        if j > 1 {
          NotLessTransitive(AddedKey(c), AddedKey(sorted[0]), AddedKey(sorted[j - 1]));
        }
      }
    } else {
      var rest := InsertNewestFirst(c, sorted[1..]);
      InsertKeepsOrder(c, sorted[1..]);
      InsertPermutes(c, sorted[1..]);
      LessAsymmetric(AddedKey(c), AddedKey(sorted[0]));
      forall j | 0 <= j < |rest|
        ensures !Less(AddedKey(sorted[0]), AddedKey(rest[j]))
      {
        assert rest[j] in multiset(rest);
        if rest[j] != c {
          assert rest[j] in multiset(sorted[1..]);
          var k :| 0 <= k < |sorted[1..]| && sorted[1..][k] == rest[j];
          assert sorted[k + 1] == rest[j];
        }
      }
    }
  }

  /** The sort result is ordered newest first. */
  lemma {:induction false} NewestFirstIsOrdered(s: seq<Candidate>)
    ensures NewestFirstOrdered(NewestFirst(s))
  {
    if s != [] {
      NewestFirstIsOrdered(s[1..]);
      InsertKeepsOrder(s[0], NewestFirst(s[1..]));
    }
  }

  /** The candidates whose sort key is `k`, in order. */
  function WithKey(s: seq<Candidate>, k: string): seq<Candidate> {
    if s == [] then []
    else (if AddedKey(s[0]) == k then [s[0]] else []) + WithKey(s[1..], k)
  }

  lemma {:induction false} InsertWithKey(c: Candidate, sorted: seq<Candidate>, k: string)
    ensures WithKey(InsertNewestFirst(c, sorted), k)
         == (if AddedKey(c) == k then [c] else []) + WithKey(sorted, k)
  {
    if sorted == [] || !Less(AddedKey(c), AddedKey(sorted[0])) {
      assert ([c] + sorted)[1..] == sorted;
    } else {
      var h := sorted[0];
      var rest := InsertNewestFirst(c, sorted[1..]);
      InsertWithKey(c, sorted[1..], k);
      LessIrreflexive(AddedKey(c));
      assert AddedKey(c) != AddedKey(h);
      var hk := if AddedKey(h) == k then [h] else [];
      assert ([h] + rest)[1..] == rest;
      assert WithKey([h] + rest, k) == hk + WithKey(rest, k);
      assert WithKey(sorted, k) == hk + WithKey(sorted[1..], k);
    }
  }

  /** Stability: for every key, the candidates carrying it keep their input order. */
  lemma {:induction false} NewestFirstIsStable(s: seq<Candidate>, k: string)
    ensures WithKey(NewestFirst(s), k) == WithKey(s, k)
  {
    if s != [] {
      NewestFirstIsStable(s[1..], k);
      InsertWithKey(s[0], NewestFirst(s[1..]), k);
    }
  }

  lemma {:induction false} FirstWithKey(s: seq<Candidate>, k: string)
    requires WithKey(s, k) != []
    ensures exists i :: 0 <= i < |s| && s[i] == WithKey(s, k)[0] && AddedKey(s[i]) == k
                        && forall j :: 0 <= j < i ==> AddedKey(s[j]) != k
  {
    if AddedKey(s[0]) != k {
      FirstWithKey(s[1..], k);
      var i :| 0 <= i < |s[1..]| && s[1..][i] == WithKey(s[1..], k)[0] && AddedKey(s[1..][i]) == k
               && forall j :: 0 <= j < i ==> AddedKey(s[1..][j]) != k;
      assert s[i + 1] == WithKey(s, k)[0];
    }
  }

  /** The head of the sorted group has the greatest `added_at`, and it is the earliest
    * candidate of the input that has it. */
  lemma NewestFirstHead(s: seq<Candidate>)
    requires s != []
    ensures var h := NewestFirst(s)[0];
      && (forall c :: c in s ==> !Less(AddedKey(h), AddedKey(c)))
      && exists i :: 0 <= i < |s| && s[i] == h
                     && forall j :: 0 <= j < i ==> AddedKey(s[j]) != AddedKey(h)
  {
    var r := NewestFirst(s);
    NewestFirstPermutes(s);
    var h := r[0];
    NewestFirstIsOrdered(s);
    forall c | c in s
      ensures !Less(AddedKey(h), AddedKey(c))
    {
      assert c in multiset(r);
      var j :| 0 <= j < |r| && r[j] == c;
      if j == 0 {
        LessIrreflexive(AddedKey(h));
      }
    }
    NewestFirstIsStable(s, AddedKey(h));
    assert r == [h] + r[1..];
    assert WithKey(r, AddedKey(h))[0] == h;
    FirstWithKey(s, AddedKey(h));
  }

  // ---------------------------------------------------------------- selection

  /** Index of the first candidate the prober finds alive, if any. */
  function FirstAlive(s: seq<Candidate>, probe: Prober): (r: Option<nat>)
    ensures r.Some? ==> r.value < |s| && Alive(probe, s[r.value])
                        && forall j :: 0 <= j < r.value ==> !Alive(probe, s[j])
    ensures r.None? <==> forall j :: 0 <= j < |s| ==> !Alive(probe, s[j])
  {
    if s == [] then None
    else if Alive(probe, s[0]) then Some(0)
    else
      match FirstAlive(s[1..], probe)
      case None => None
      case Some(i) => Some(i + 1)
  }

  /** One playlist entry. */
  datatype Entry = Entry(category: string, name: string, url: string)

  /** The entry a non-empty group contributes: the first live candidate newest first,
    * or else the newest candidate with its name marked dead. */
  function GroupEntry(candidates: seq<Candidate>, probe: Prober): Entry
    requires candidates != []
  {
    var sorted := NewestFirst(candidates);
    match FirstAlive(sorted, probe)
    case Some(i) => Entry(sorted[i].category, sorted[i].name, sorted[i].url)
    case None => Entry(sorted[0].category, sorted[0].name + DeadMarker, sorted[0].url)
  }

  /** A live candidate is emitted as it is, and every candidate strictly newer than it is dead. */
  lemma SelectionIsNewestAlive(candidates: seq<Candidate>, probe: Prober)
    requires exists c :: c in candidates && Alive(probe, c)
    ensures var e := GroupEntry(candidates, probe);
      exists c :: c in candidates && Alive(probe, c) && e == Entry(c.category, c.name, c.url)
                  && forall d :: d in candidates && Less(AddedKey(c), AddedKey(d)) ==> !Alive(probe, d)
  {
    var sorted := NewestFirst(candidates);
    NewestFirstPermutes(candidates);
    var c0 :| c0 in candidates && Alive(probe, c0);
    assert c0 in multiset(sorted);
    var i0 :| 0 <= i0 < |sorted| && sorted[i0] == c0;
    var i := FirstAlive(sorted, probe).value;
    var c := sorted[i];
    assert c in multiset(candidates);
    NewestFirstIsOrdered(candidates);
    forall d | d in candidates && Less(AddedKey(c), AddedKey(d))
      ensures !Alive(probe, d)
    {
      assert d in multiset(sorted);
      var j :| 0 <= j < |sorted| && sorted[j] == d;
      if j >= i {
        if j == i {
          LessIrreflexive(AddedKey(c));
        }
        assert false;
      }
    }
  }

  /** When every candidate is alive, the one emitted has the greatest `added_at` and is the
    * earliest of the input among those that share it. */
  lemma SelectionAllAlive(candidates: seq<Candidate>, probe: Prober)
    requires candidates != []
    requires forall c :: c in candidates ==> Alive(probe, c)
    ensures var e := GroupEntry(candidates, probe);
      exists i :: 0 <= i < |candidates|
        && e == Entry(candidates[i].category, candidates[i].name, candidates[i].url)
        && (forall c :: c in candidates ==> !Less(AddedKey(candidates[i]), AddedKey(c)))
        && forall j :: 0 <= j < i ==> AddedKey(candidates[j]) != AddedKey(candidates[i])
  {
    var sorted := NewestFirst(candidates);
    NewestFirstPermutes(candidates);
    assert sorted[0] in multiset(candidates);
    assert FirstAlive(sorted, probe) == Some(0);
    NewestFirstHead(candidates);
  }

  /** When no candidate is alive, the newest one (the earliest among ties) is emitted with
    * its name followed by the dead marker. */
  lemma SelectionDeadFallback(candidates: seq<Candidate>, probe: Prober)
    requires candidates != []
    requires forall c :: c in candidates ==> !Alive(probe, c)
    ensures var e := GroupEntry(candidates, probe);
      exists i :: 0 <= i < |candidates|
        && e == Entry(candidates[i].category, candidates[i].name + DeadMarker, candidates[i].url)
        && (forall c :: c in candidates ==> !Less(AddedKey(candidates[i]), AddedKey(c)))
        && forall j :: 0 <= j < i ==> AddedKey(candidates[j]) != AddedKey(candidates[i])
  {
    var sorted := NewestFirst(candidates);
    NewestFirstPermutes(candidates);
    forall j | 0 <= j < |sorted|
      ensures !Alive(probe, sorted[j])
    {
      assert sorted[j] in multiset(candidates);
    }
    NewestFirstHead(candidates);
  }

  // ---------------------------------------------------------------- rendering

  /** `f'#EXTINF:-1 group-title="{category}",{name}'`. */
  function ExtInf(e: Entry): string {
    ExtInfPrefix + e.category + "\"," + e.name
  }

  /** The two lines of a non-empty group; nothing for an empty one. */
  function GroupLines(g: Group, probe: Prober): seq<string> {
    if g.candidates == [] then []
    else
      var e := GroupEntry(g.candidates, probe);
      [ExtInf(e), e.url]
  }

  /** The lines after the header, group by group in database order. */
  function RenderGroups(db: Db, probe: Prober): seq<string> {
    if db == [] then []
    else RenderGroups(db[..|db| - 1], probe) + GroupLines(db[|db| - 1], probe)
  }

  lemma RenderGroupsStep(db: Db, i: nat, probe: Prober)
    requires i < |db|
    ensures RenderGroups(db[..i + 1], probe) == RenderGroups(db[..i], probe) + GroupLines(db[i], probe)
  {
    assert db[..i + 1][..i] == db[..i];
  }

  /** The groups that have candidates, in database order. */
  function NonEmptyGroups(db: Db): (r: seq<Group>)
    ensures |r| <= |db|
    ensures forall g :: g in r <==> g in db && g.candidates != []
  {
    if db == [] then []
    else
      var last := db[|db| - 1];
      assert db == db[..|db| - 1] + [last];
      NonEmptyGroups(db[..|db| - 1]) + (if last.candidates == [] then [] else [last])
  }

  /** `build_m3u` as a value: the two placeholder documents, or the header and two lines
    * per non-empty group. */
  function Playlist(file: StreamsFile, probe: Prober): (lines: seq<string>)
    ensures lines != [] && lines[0] == Header
  {
    match file
    case Absent => [Header, NoStreamsNote]
    case Unreadable => [Header, LoadErrorNote]
    case Malformed => [Header, LoadErrorNote]
    case Parsed(db) => [Header] + RenderGroups(db, probe)
  }

  /** The rendered lines are, group by group, the two lines of each non-empty group. */
  lemma {:induction false} RenderedLayout(db: Db, probe: Prober)
    ensures var lines := RenderGroups(db, probe);
      var groups := NonEmptyGroups(db);
      && |lines| == 2 * |groups|
      && forall k :: 0 <= k < |groups| ==> [lines[2 * k], lines[2 * k + 1]] == GroupLines(groups[k], probe)
  {
    if db != [] {
      var init := db[..|db| - 1];
      var last := db[|db| - 1];
      RenderedLayout(init, probe);
      if last.candidates != [] {
        assert |GroupLines(last, probe)| == 2;
        assert NonEmptyGroups(db) == NonEmptyGroups(init) + [last];
      }
    }
  }

  /** A loaded database gives the header, then for the k-th non-empty group its `#EXTINF`
    * line and its url, and nothing else. */
  lemma PlaylistLayout(db: Db, probe: Prober)
    ensures var lines := Playlist(Parsed(db), probe);
      var groups := NonEmptyGroups(db);
      && lines[0] == Header
      && |lines| == 1 + 2 * |groups|
      && forall k :: 0 <= k < |groups| ==>
           lines[1 + 2 * k] == ExtInf(GroupEntry(groups[k].candidates, probe))
           && lines[2 + 2 * k] == GroupEntry(groups[k].candidates, probe).url
  {
    RenderedLayout(db, probe);
    var groups := NonEmptyGroups(db);
    forall k | 0 <= k < |groups|
      ensures groups[k].candidates != []
    {
      assert groups[k] in groups;
    }
  }

  /** A database whose groups are all empty (or that has no groups) gives just the header. */
  lemma {:induction false} EmptyDatabaseIsHeaderOnly(db: Db, probe: Prober)
    requires forall g :: g in db ==> g.candidates == []
    ensures Playlist(Parsed(db), probe) == [Header]
  {
    if db != [] {
      EmptyDatabaseIsHeaderOnly(db[..|db| - 1], probe);
    }
  }

  /** The `for cand in candidates` search that stops at the first live candidate. */
  method FindAlive(candidates: seq<Candidate>, probe: Prober) returns (selected: Option<Candidate>)
    ensures selected.Some? <==> FirstAlive(candidates, probe).Some?
    ensures selected.Some? ==> selected.value == candidates[FirstAlive(candidates, probe).value]
  {
    selected := None;
    for j := 0 to |candidates|
      invariant forall k :: 0 <= k < j ==> !Alive(probe, candidates[k])
    {
      if IsStreamAlive(probe(candidates[j].url)) {
        selected := Some(candidates[j]);
        assert FirstAlive(candidates, probe) == Some(j);
        break;
      }
    }
  }

  /** The body of `build_m3u`'s loop for one non-empty group: sort it, search it, and pick the entry's fields. */
  method SelectEntry(candidates: seq<Candidate>, probe: Prober) returns (e: Entry)
    requires candidates != []
    ensures e == GroupEntry(candidates, probe)
  {
    var sorted := NewestFirst(candidates);
    var selected := FindAlive(sorted, probe);
    var name := if selected.Some? then selected.value.name else sorted[0].name + DeadMarker;
    var category := if selected.Some? then selected.value.category else sorted[0].category;
    var url := if selected.Some? then selected.value.url else sorted[0].url;
    e := Entry(category, name, url);
  }

  /** `build_m3u`: the outer loop appends two lines per non-empty group. */
  method BuildM3u(file: StreamsFile, probe: Prober) returns (lines: seq<string>)
    ensures lines == Playlist(file, probe)
    ensures file == Absent ==> lines == [Header, NoStreamsNote]
    ensures file == Unreadable || file == Malformed ==> lines == [Header, LoadErrorNote]
  {
    if file == Absent {
      return [Header, NoStreamsNote];
    }
    if !file.Parsed? {
      return [Header, LoadErrorNote];
    }
    var db := file.db;
    lines := [Header];
    for i := 0 to |db|
      invariant lines == [Header] + RenderGroups(db[..i], probe)
    {
      RenderGroupsStep(db, i, probe);
      if db[i].candidates == [] {
        continue;
      }
      var e := SelectEntry(db[i].candidates, probe);
      lines := lines + [ExtInfPrefix + e.category + "\"," + e.name];
      lines := lines + [e.url];
    }
    assert db[..|db|] == db;
  }

  // ---------------------------------------------------------------- what survives master.m3u

  /** Every field of a candidate that reaches `master.m3u` comes back unchanged from it. */
  predicate CleanCandidate(c: Candidate) {
    '\n' !in c.category && '\r' !in c.category && CleanLine(c.name) && CleanLine(c.url)
  }

  predicate CleanFile(file: StreamsFile) {
    file.Parsed? ==> forall g, c :: g in file.db && c in g.candidates ==> CleanCandidate(c)
  }

  /** The emitted entry is made of the fields of one candidate of the group. */
  lemma GroupEntryFromCandidate(candidates: seq<Candidate>, probe: Prober)
    requires candidates != []
    ensures var e := GroupEntry(candidates, probe);
      exists c :: c in candidates && e.category == c.category && e.url == c.url
                  && (e.name == c.name || e.name == c.name + DeadMarker)
  {
    var sorted := NewestFirst(candidates);
    NewestFirstPermutes(candidates);
    match FirstAlive(sorted, probe)
    case Some(i) =>
      assert sorted[i] in multiset(candidates);
    case None =>
      assert sorted[0] in multiset(candidates);
  }

  lemma ExtInfPrefixNoBreak()
    ensures '\n' !in ExtInfPrefix && '\r' !in ExtInfPrefix
  {
  }

  lemma CleanEntryLines(c: Candidate, e: Entry)
    requires CleanCandidate(c)
    requires e.category == c.category && e.url == c.url
    requires e.name == c.name || e.name == c.name + DeadMarker
    ensures CleanLine(ExtInf(e)) && CleanLine(e.url)
  {
    ExtInfPrefixNoBreak();
    assert '\n' !in e.name && '\r' !in e.name && (e.name == [] || !IsSpace(e.name[|e.name| - 1])) by {
      if e.name != c.name {
        assert e.name[|e.name| - 1] == '\U{274C}';
      }
    }
    var line := ExtInf(e);
    assert line[|line| - 1] == if e.name == [] then ',' else e.name[|e.name| - 1];
    NoTrailingSpace(line);
  }

  lemma {:induction false} RenderedClean(db: Db, probe: Prober)
    requires CleanFile(Parsed(db))
    ensures forall k :: 0 <= k < |RenderGroups(db, probe)| ==> CleanLine(RenderGroups(db, probe)[k])
  {
    if db != [] {
      var init := db[..|db| - 1];
      var g := db[|db| - 1];
      assert CleanFile(Parsed(init)) by {
        forall h, c | h in init && c in h.candidates
          ensures CleanCandidate(c)
        {
          assert h in db;
        }
      }
      RenderedClean(init, probe);
      if g.candidates != [] {
        GroupEntryFromCandidate(g.candidates, probe);
        var e := GroupEntry(g.candidates, probe);
        var c :| c in g.candidates && e.category == c.category && e.url == c.url
                 && (e.name == c.name || e.name == c.name + DeadMarker);
        CleanEntryLines(c, e);
        assert RenderGroups(db, probe) == RenderGroups(init, probe) + [ExtInf(e), e.url];
      }
    }
  }

  lemma HeaderClean()
    ensures CleanLine(Header)
  {
    NoTrailingSpace(Header);
  }

  lemma NoStreamsNoteNoNewline()
    ensures '\n' !in NoStreamsNote
  {
  }

  lemma NoStreamsNoteNoReturn()
    ensures '\r' !in NoStreamsNote
  {
  }

  lemma NoStreamsNoteClean()
    ensures CleanLine(NoStreamsNote)
  {
    NoStreamsNoteNoNewline();
    NoStreamsNoteNoReturn();
    NoTrailingSpace(NoStreamsNote);
  }

  lemma LoadErrorNoteClean()
    ensures CleanLine(LoadErrorNote)
  {
    NoTrailingSpace(LoadErrorNote);
  }

  lemma PlaceholdersClean()
    ensures CleanLine(Header) && CleanLine(NoStreamsNote) && CleanLine(LoadErrorNote)
  {
    HeaderClean();
    NoStreamsNoteClean();
    LoadErrorNoteClean();
  }

  /** A database of clean candidates gives a document that survives the write/read-back cycle. */
  lemma PlaylistClean(file: StreamsFile, probe: Prober)
    requires CleanFile(file)
    ensures forall k :: 0 <= k < |Playlist(file, probe)| ==> CleanLine(Playlist(file, probe)[k])
  {
    PlaceholdersClean();
    match file
    case Parsed(db) =>
      RenderedClean(db, probe);
      assert Playlist(file, probe) == [Header] + RenderGroups(db, probe);
    case _ =>
  }

  // ---------------------------------------------------------------- one tick

  /** `current_m3u`: the lines read back from `master.m3u`, or `[]` when there is no file. */
  function CurrentLines(master: Option<string>): seq<string> {
    match master
    case None => []
    case Some(text) => ReadLines(text)
  }

  /** `new_m3u != current_m3u`: exact, order-sensitive comparison. */
  predicate MustWrite(lines: seq<string>, master: Option<string>) {
    lines != CurrentLines(master)
  }

  /** The content of `master.m3u` after a tick that built `lines`. */
  function NextMaster(master: Option<string>, lines: seq<string>): Option<string> {
    if MustWrite(lines, master) then Some(Written(lines)) else master
  }

  /** With no `master.m3u` yet, the first tick always writes: a built document is never empty. */
  lemma FirstTickWrites(file: StreamsFile, probe: Prober)
    ensures MustWrite(Playlist(file, probe), None)
  {
  }

  /** Once a clean document has been written, reading it back gives it again. */
  lemma WrittenSettles(master: Option<string>, lines: seq<string>)
    requires lines != [] && forall k :: 0 <= k < |lines| ==> CleanLine(lines[k])
    ensures CurrentLines(NextMaster(master, lines)) == lines
  {
    if MustWrite(lines, master) {
      WriteReadRoundTrip(lines);
    }
  }

  /** With a clean database, a second tick that builds the same document writes nothing. */
  lemma SecondTickIsNoop(file: StreamsFile, probe: Prober, master: Option<string>)
    requires CleanFile(file)
    ensures var lines := Playlist(file, probe);
      && !MustWrite(lines, NextMaster(master, lines))
      && NextMaster(NextMaster(master, lines), lines) == NextMaster(master, lines)
  {
    var lines := Playlist(file, probe);
    PlaylistClean(file, probe);
    WrittenSettles(master, lines);
  }

  /** A document with a line ending in white space never equals what is read back, because
    * reading strips every line: such a document is rewritten on every tick. */
  lemma TrailingSpaceAlwaysRewrites(lines: seq<string>, master: Option<string>)
    requires exists k :: 0 <= k < |lines| && RStrip(lines[k]) != lines[k]
    ensures MustWrite(lines, master)
  {
    if master.Some? {
      ReadLinesStripped(master.value);
    }
  }

  /** An `#EXTINF` line whose name ends in white space loses it on reading. */
  lemma ExtInfTrailingSpace(e: Entry)
    requires e.name != [] && IsSpace(e.name[|e.name| - 1])
    ensures RStrip(ExtInf(e)) != ExtInf(e)
  {
    var line := ExtInf(e);
    assert line[|line| - 1] == e.name[|e.name| - 1];
    TrailingSpaceIsStripped(line);
  }

  lemma PlaylistInfoLine(db: Db, probe: Prober, k: nat)
    requires k < |NonEmptyGroups(db)|
    ensures 1 + 2 * k < |Playlist(Parsed(db), probe)|
    ensures Playlist(Parsed(db), probe)[1 + 2 * k] == ExtInf(GroupEntry(NonEmptyGroups(db)[k].candidates, probe))
  {
    PlaylistLayout(db, probe);
  }

  /** A live channel whose name ends in white space keeps `master.m3u` rewritten every tick. */
  lemma TrailingSpaceNameAlwaysRewrites(db: Db, probe: Prober, master: Option<string>, g: Group)
    requires g in db && g.candidates != []
    requires var name := GroupEntry(g.candidates, probe).name;
      name != [] && IsSpace(name[|name| - 1])
    ensures MustWrite(Playlist(Parsed(db), probe), master)
  {
    var groups := NonEmptyGroups(db);
    assert g in groups;
    var k :| 0 <= k < |groups| && groups[k] == g;
    PlaylistInfoLine(db, probe, k);
    ExtInfTrailingSpace(GroupEntry(g.candidates, probe));
    TrailingSpaceAlwaysRewrites(Playlist(Parsed(db), probe), master);
  }

  // ---------------------------------------------------------------- channel count

  /** `len(new_m3u) - 1`, the figure the update notification reports as "channels". */
  function ReportedChannels(lines: seq<string>): int {
    |lines| - 1
  }

  /** As written, the notification counts both lines of every channel. */
  lemma ReportedChannelsDoubleCount(db: Db, probe: Prober)
    ensures ReportedChannels(Playlist(Parsed(db), probe)) == 2 * |NonEmptyGroups(db)|
  {
    PlaylistLayout(db, probe);
  }

  /** One channel with one candidate is reported as two channels. */
  lemma ReportedChannelsOneChannel(probe: Prober)
    ensures var db := [Group("sun_tv", [Candidate("http://a/1", "Sun TV", "Tamil", None)])];
      |NonEmptyGroups(db)| == 1 && ReportedChannels(Playlist(Parsed(db), probe)) == 2
  {
    var db := [Group("sun_tv", [Candidate("http://a/1", "Sun TV", "Tamil", None)])];
    assert db[0] in NonEmptyGroups(db);
    ReportedChannelsDoubleCount(db, probe);
  }

  /** The number of channel entries of a built document: one per two lines after the header. */
  function ChannelCount(lines: seq<string>): nat
    requires lines != []
  {
    (|lines| - 1) / 2
  }

  /** The channel count is the number of non-empty groups, and zero for a placeholder. */
  lemma ChannelCountCorrect(file: StreamsFile, probe: Prober)
    ensures ChannelCount(Playlist(file, probe)) == if file.Parsed? then |NonEmptyGroups(file.db)| else 0
  {
    if file.Parsed? {
      PlaylistLayout(file.db, probe);
    }
  }

  // ---------------------------------------------------------------- the loop

  /** What one tick sees: the stream database on disk and the network's answers. */
  datatype TickInput = TickInput(streams: StreamsFile, probe: Prober)

  /** `master.m3u` after a run of ticks. */
  function MasterAfter(master: Option<string>, ticks: seq<TickInput>): Option<string> {
    if ticks == [] then master
    else
      var last := ticks[|ticks| - 1];
      NextMaster(MasterAfter(master, ticks[..|ticks| - 1]), Playlist(last.streams, last.probe))
  }

  /** How many ticks of a run rewrite `master.m3u`. */
  function WritesDuring(master: Option<string>, ticks: seq<TickInput>): nat {
    if ticks == [] then 0
    else
      var last := ticks[|ticks| - 1];
      var before := ticks[..|ticks| - 1];
      WritesDuring(master, before)
        + if MustWrite(Playlist(last.streams, last.probe), MasterAfter(master, before)) then 1 else 0
  }

  /** Ticks that all build the same clean document write it once at most: only the first
    * tick can find `master.m3u` different, and with no file it always does. */
  lemma {:induction false} SteadyTicksWriteAtMostOnce(master: Option<string>, ticks: seq<TickInput>, lines: seq<string>)
    requires lines != [] && forall k :: 0 <= k < |lines| ==> CleanLine(lines[k])
    requires forall i :: 0 <= i < |ticks| ==> Playlist(ticks[i].streams, ticks[i].probe) == lines
    ensures WritesDuring(master, ticks) == if ticks != [] && MustWrite(lines, master) then 1 else 0
    ensures ticks != [] ==> CurrentLines(MasterAfter(master, ticks)) == lines
  {
    if ticks != [] {
      var before := ticks[..|ticks| - 1];
      SteadyTicksWriteAtMostOnce(master, before, lines);
      WrittenSettles(MasterAfter(master, before), lines);
    }
  }

  /** The guardian's durable state: the text of `master.m3u`, `None` while there is none. */
  class Guardian {
    var master: Option<string>

    constructor (initial: Option<string>)
      ensures master == initial
    {
      master := initial;
    }

    /** One pass of the main loop: build the document, read the current one back, and write
      * the new one only when the two differ. `channels` is the count the update
      * notification carries, computed as the code writes it (see `ReportedChannels`). */
    method Tick(streams: StreamsFile, probe: Prober) returns (wrote: bool, channels: int)
      modifies this
      ensures wrote == MustWrite(Playlist(streams, probe), old(master))
      ensures master == NextMaster(old(master), Playlist(streams, probe))
      ensures channels == ReportedChannels(Playlist(streams, probe))
    {
      var newM3u := BuildM3u(streams, probe);
      var current: seq<string> := [];
      if master.Some? {
        current := ReadLines(master.value);
      }
      wrote := newM3u != current;
      if wrote {
        master := Some(Written(newM3u));
      }
      channels := ReportedChannels(newM3u);
    }

    /** The main loop over a given sequence of ticks; returns how many of them wrote. */
    method Run(ticks: seq<TickInput>) returns (writes: nat)
      modifies this
      ensures master == MasterAfter(old(master), ticks)
      ensures writes == WritesDuring(old(master), ticks)
    {
      writes := 0;
      for i := 0 to |ticks|
        invariant master == MasterAfter(old(master), ticks[..i])
        invariant writes == WritesDuring(old(master), ticks[..i])
      {
        var t := ticks[i];
        assert ticks[..i + 1][..i] == ticks[..i] && ticks[..i + 1][i] == t;
        var wrote, channels := Tick(t.streams, t.probe);
        if wrote {
          writes := writes + 1;
        }
      }
      assert ticks[..|ticks|] == ticks;
    }
  }
}
