/**
 * scripts/fetch_once.py: keep the provider's streams that answer a HEAD request (or, after
 * a 403, a ranged GET), then merge them into the stream database, grouped under the
 * normalised display name, never adding a url a group already has.
 */
module FetchOnce {
  import opened Wrappers
  import opened Text
  import opened Streams
  import GuardianLoop

  /** A record of the provider's stream list: its "stream_url", its "name" and the `str()`
    * of its "category_id", each `None` when the record has no such field. */
  datatype Stream = Stream(streamUrl: Option<string>, name: Option<string>, categoryId: Option<string>)

  /** A record of the provider's category list: `str(category_id)` and `category_name`. */
  datatype Category = Category(id: string, name: string)

  // ---------------------------------------------------------------- categories

  /** `cat_map = {str(c["category_id"]): c["category_name"] for c in categories}`. */
  function CategoryMap(categories: seq<Category>): (m: map<string, string>)
    ensures m.Keys == set c | c in categories :: c.id
  {
    if categories == [] then map[]
    else
      var last := categories[|categories| - 1];
      assert categories == categories[..|categories| - 1] + [last];
      CategoryMap(categories[..|categories| - 1])[last.id := last.name]
  }

  /** In the comprehension a later category with the same id overwrites an earlier one. */
  lemma {:induction false} CategoryMapLastWins(categories: seq<Category>, i: nat)
    requires i < |categories|
    requires forall j :: i < j < |categories| ==> categories[j].id != categories[i].id
    ensures CategoryMap(categories)[categories[i].id] == categories[i].name
  {
    if i < |categories| - 1 {
      CategoryMapLastWins(categories[..|categories| - 1], i);
    }
  }

  /** `cat_map.get(str(s.get("category_id", "")), "Other")`. */
  function CategoryOf(catMap: map<string, string>, s: Stream): string {
    var id := s.categoryId.GetOr("");
    if id in catMap then catMap[id] else "Other"
  }

  // ---------------------------------------------------------------- health check

  /** HEAD answering 200, 206, 301 or 302 is healthy; HEAD answering 403 is retried as a
    * ranged GET, healthy when that answers 200 or 206; anything else, or an exception
    * from either request, is not. */
  function ProbeHealthy(url: string, head: Prober, get: Prober): (ok: bool)
    ensures ok <==> head(url).Some?
                    && (head(url).value in {200, 206, 301, 302}
                        || (head(url).value == 403 && get(url).Some? && get(url).value in {200, 206}))
  {
    match head(url)
    case None => false
    case Some(status) =>
      if status == 200 || status == 206 || status == 301 || status == 302 then true
      else if status == 403 then
        match get(url)
        case None => false
        case Some(status2) => status2 == 200 || status2 == 206
      else false
  }

  /** Every stream this script keeps, the guardian loop also finds alive. */
  lemma HealthyIsAliveForGuardian(url: string, head: Prober, get: Prober)
    requires ProbeHealthy(url, head, get)
    ensures GuardianLoop.IsStreamAlive(head(url))
  {
  }

  /** The converse fails: a HEAD 403 whose GET is refused is dropped here but alive there. */
  lemma ForbiddenHeadDiffers(url: string)
    ensures var head: Prober := u => Some(403);
      var get: Prober := u => Some(404);
      !ProbeHealthy(url, head, get) && GuardianLoop.IsStreamAlive(head(url))
  {
  }

  /** `s.get("name", "Unknown")`. */
  function NameOf(s: Stream): string {
    s.name.GetOr("Unknown")
  }

  /** The stream has a non-empty url and name and passes the health check. */
  predicate Kept(s: Stream, head: Prober, get: Prober) {
    s.streamUrl.Some? && s.streamUrl.value != "" && NameOf(s) != ""
    && ProbeHealthy(s.streamUrl.value, head, get)
  }

  /** The record appended to `healthy`; `stamp` is `datetime.utcnow().isoformat()`. */
  function ItemOf(s: Stream, catMap: map<string, string>, stamp: string): Candidate
    requires s.streamUrl.Some?
  {
    Candidate(s.streamUrl.value, NameOf(s), CategoryOf(catMap, s), Some(stamp))
  }

  /** `healthy` after the loop; `clock(i)` is the time stamp taken for the i-th stream. */
  function HealthyStreams(streams: seq<Stream>, catMap: map<string, string>, head: Prober, get: Prober,
                          clock: nat -> string): seq<Candidate>
  {
    if streams == [] then []
    else
      var i := |streams| - 1;
      HealthyStreams(streams[..i], catMap, head, get, clock)
        + if Kept(streams[i], head, get) then [ItemOf(streams[i], catMap, clock(i))] else []
  }

  /** Positions of the kept streams, in increasing order. */
  function KeptIndices(streams: seq<Stream>, head: Prober, get: Prober): (idx: seq<nat>)
    ensures |idx| <= |streams|
    ensures forall k :: 0 <= k < |idx| ==> idx[k] < |streams| && Kept(streams[idx[k]], head, get)
    ensures forall k, l :: 0 <= k < l < |idx| ==> idx[k] < idx[l]
    ensures forall i :: 0 <= i < |streams| && Kept(streams[i], head, get) ==> i in idx
  {
    if streams == [] then []
    else
      var i := |streams| - 1;
      var before := KeptIndices(streams[..i], head, get);
      before + if Kept(streams[i], head, get) then [i] else []
  }

  /** `healthy` is the kept streams, in input order, each turned into its record: so it is
    * a subsequence of the input and no longer than it. */
  lemma {:induction false} HealthyAreKeptInOrder(streams: seq<Stream>, catMap: map<string, string>,
                                                 head: Prober, get: Prober, clock: nat -> string)
    ensures var healthy := HealthyStreams(streams, catMap, head, get, clock);
      var idx := KeptIndices(streams, head, get);
      && |healthy| == |idx|
      && forall k :: 0 <= k < |idx| ==> healthy[k] == ItemOf(streams[idx[k]], catMap, clock(idx[k]))
  {
    if streams != [] {
      var i := |streams| - 1;
      HealthyAreKeptInOrder(streams[..i], catMap, head, get, clock);
      var idx := KeptIndices(streams, head, get);
      var before := KeptIndices(streams[..i], head, get);
      forall k | 0 <= k < |before|
        ensures streams[..i][before[k]] == streams[before[k]]
      {
      }
    }
  }

  /** Each kept record carries the category its id names in the category map, or "Other". */
  lemma HealthyCategories(streams: seq<Stream>, catMap: map<string, string>, head: Prober, get: Prober,
                          clock: nat -> string, k: nat)
    requires k < |HealthyStreams(streams, catMap, head, get, clock)|
    ensures var item := HealthyStreams(streams, catMap, head, get, clock)[k];
      exists i :: 0 <= i < |streams| && Kept(streams[i], head, get)
        && item.url == streams[i].streamUrl.value && item.name == NameOf(streams[i])
        && var id := streams[i].categoryId.GetOr("");
           item.category == if id in catMap then catMap[id] else "Other"
  {
    HealthyAreKeptInOrder(streams, catMap, head, get, clock);
    var idx := KeptIndices(streams, head, get);
    assert idx[k] < |streams|;
  }

  /** The loop over `streams` that appends each stream passing the checks to `healthy`. */
  method CollectHealthy(streams: seq<Stream>, catMap: map<string, string>, head: Prober, get: Prober,
                        clock: nat -> string) returns (healthy: seq<Candidate>)
    ensures healthy == HealthyStreams(streams, catMap, head, get, clock)
  {
    healthy := [];
    for i := 0 to |streams|
      invariant healthy == HealthyStreams(streams[..i], catMap, head, get, clock)
    {
      assert streams[..i + 1][..i] == streams[..i];
      var s := streams[i];
      var name := NameOf(s);
      var category := CategoryOf(catMap, s);
      if s.streamUrl.None? || s.streamUrl.value == "" || name == "" {
        continue;
      }
      var url := s.streamUrl.value;
      var status := head(url);
      if status.None? {
        continue;
      }
      if status.value == 200 || status.value == 206 || status.value == 301 || status.value == 302 {
        healthy := healthy + [Candidate(url, name, category, Some(clock(i)))];
      } else if status.value == 403 {
        var status2 := get(url);
        if status2.Some? && (status2.value == 200 || status2.value == 206) {
          healthy := healthy + [Candidate(url, name, category, Some(clock(i)))];
        }
      }
    }
    assert streams[..|streams|] == streams;
  }

  // ---------------------------------------------------------------- grouping key

  /** One character of `normalize`: ASCII lower case, then ' ', '-' and '.' become '_'. */
  function NormalizeChar(c: char): (n: char)
    ensures n != ' ' && n != '-' && n != '.' && !('A' <= n <= 'Z')
    ensures !IsSpace(c) ==> !IsSpace(n)
  {
    var l := LowerChar(c);
    if l == ' ' || l == '-' || l == '.' then '_' else l
  }

  /** `name.strip().lower().replace(" ", "_").replace("-", "_").replace(".", "_")`. */
  function Normalize(name: string): string {
    Replace(Replace(Replace(Lower(Strip(name)), ' ', '_'), '-', '_'), '.', '_')
  }

  /** The three replacements act character by character, so nothing is collapsed: the key
    * has the stripped name's length, and each character is `NormalizeChar` of its own. */
  lemma NormalizeChars(name: string)
    ensures |Normalize(name)| == |Strip(name)|
    ensures forall i :: 0 <= i < |Normalize(name)| ==> Normalize(name)[i] == NormalizeChar(Strip(name)[i])
  {
    var s := Strip(name);
    var lowered := Lower(s);
    var a := Replace(lowered, ' ', '_');
    var b := Replace(a, '-', '_');
    var key := Replace(b, '.', '_');
    forall i | 0 <= i < |s|
      ensures key[i] == NormalizeChar(s[i])
    {
      assert lowered[i] == LowerChar(s[i]);
      assert a[i] == (if lowered[i] == ' ' then '_' else lowered[i]);
      assert b[i] == (if a[i] == '-' then '_' else a[i]);
    }
  }

  /** A key has no space, hyphen, period or ASCII capital letter. */
  lemma NormalizeNoSeparators(name: string)
    ensures var key := Normalize(name);
      ' ' !in key && '-' !in key && '.' !in key && forall i :: 0 <= i < |key| ==> !('A' <= key[i] <= 'Z')
  {
    var key := Normalize(name);
    NormalizeChars(name);
    forall i | 0 <= i < |key|
      ensures key[i] != ' ' && key[i] != '-' && key[i] != '.' && !('A' <= key[i] <= 'Z')
    {
      assert key[i] == NormalizeChar(Strip(name)[i]);
    }
  }

  /** Normalising a key again changes nothing. */
  lemma NormalizeIdempotent(name: string)
    ensures Normalize(Normalize(name)) == Normalize(name)
  {
    var key := Normalize(name);
    var s := Strip(name);
    NormalizeChars(name);
    if key != [] {
      assert key[0] == NormalizeChar(s[0]);
      assert key[|key| - 1] == NormalizeChar(s[|s| - 1]);
    }
    StripTrimmed(key);
    var again := Normalize(key);
    NormalizeChars(key);
    forall i | 0 <= i < |key|
      ensures again[i] == key[i]
    {
      assert again[i] == NormalizeChar(key[i]);
    }
  }

  // ---------------------------------------------------------------- loading

  /** In scripts/fetch_once.py, no file or a file `json.load` rejects leaves `db = {}`; the `open` is
    * outside the `try`, so a file that exists but cannot be opened stops the script. */
  function LoadDb(file: StreamsFile): (db: Option<Db>)
    ensures db.None? <==> file == Unreadable
    ensures file == Absent || file == Malformed ==> db == Some([])
  {
    match file
    case Absent => Some([])
    case Unreadable => None
    case Malformed => Some([])
    case Parsed(db) => Some(db)
  }

  // ---------------------------------------------------------------- merge

  /** How an item picks its group. The script groups by `normalize(item["name"])`
    * (`GroupKey`); the merge properties below hold for any choice. */
  type KeyOf = Candidate -> string

  function GroupKey(item: Candidate): string {
    Normalize(item.name)
  }

  /** The position of `key` in the database, if it is there (`key in db`, `db[key]`). */
  function Find(db: Db, key: string): (r: Option<nat>)
    ensures r.Some? ==> r.value < |db| && db[r.value].key == key
                        && forall j :: 0 <= j < r.value ==> db[j].key != key
    ensures r.None? <==> forall j :: 0 <= j < |db| ==> db[j].key != key
  {
    if db == [] then None
    else if db[0].key == key then Some(0)
    else
      match Find(db[1..], key)
      case None => None
      case Some(i) => Some(i + 1)
  }

  /** `any(existing["url"] == url for existing in group)`. */
  predicate HasUrl(group: seq<Candidate>, url: string) {
    exists c :: c in group && c.url == url
  }

  /** One pass of the merge loop for an item whose key is `key`: create the group if it is
    * missing, then append the item unless its url is already in the group. */
  function AddToGroup(db: Db, key: string, item: Candidate): Db {
    match Find(db, key)
    case None => db + [Group(key, [item])]
    case Some(i) =>
      if HasUrl(db[i].candidates, item.url) then db
      else db[i := Group(key, db[i].candidates + [item])]
  }

  /** One pass of the merge loop: the key is the item's key. */
  function AddItem(db: Db, item: Candidate, keyOf: KeyOf): Db {
    AddToGroup(db, keyOf(item), item)
  }

  /** The database after merging `items` in order. */
  function MergeAll(db: Db, items: seq<Candidate>, keyOf: KeyOf): Db {
    if items == [] then db
    else AddItem(MergeAll(db, items[..|items| - 1], keyOf), items[|items| - 1], keyOf)
  }

  /** Creating an empty group and then filling it is the same as adding the filled group. */
  lemma CreateThenFill(db: Db, g: Group)
    ensures (db + [Group(g.key, [])])[|db| := g] == db + [g]
  {
  }

  /** For a new key, `db[key] = []` followed by the append gives `AddToGroup`. */
  lemma NewKeyStep(db: Db, key: string, item: Candidate)
    requires Find(db, key).None?
    ensures var created := db + [Group(key, [])];
      && !HasUrl(created[|db|].candidates, item.url)
      && created[|db| := Group(key, created[|db|].candidates + [item])] == AddToGroup(db, key, item)
  {
    var created := db + [Group(key, [])];
    assert created[|db|].candidates + [item] == [item];
    CreateThenFill(db, Group(key, [item]));
  }

  /** One pass of the merge loop of scripts/fetch_once.py: `db[key] = []` for a missing key,
    * then the append unless the url is already in the group. */
  method AddToDb(db: Db, item: Candidate) returns (merged: Db)
    ensures merged == AddItem(db, item, GroupKey)
  {
    var key := Normalize(item.name);
    var at := Find(db, key);
    merged := db;
    if at.None? {
      NewKeyStep(db, key, item);
      merged := merged + [Group(key, [])];
      at := Some(|merged| - 1);
    }
    if !HasUrl(merged[at.value].candidates, item.url) {
      merged := merged[at.value := Group(key, merged[at.value].candidates + [item])];
    }
  }

  /** The merge loop of scripts/fetch_once.py, updating the dict item by item. */
  method Merge(db: Db, healthy: seq<Candidate>) returns (merged: Db)
    ensures merged == MergeAll(db, healthy, GroupKey)
  {
    merged := db;
    for i := 0 to |healthy|
      invariant merged == MergeAll(db, healthy[..i], GroupKey)
    {
      assert healthy[..i + 1][..i] == healthy[..i];
      merged := AddToDb(merged, healthy[i]);
    }
    assert healthy[..|healthy|] == healthy;
  }

  // ---------------------------------------------------------------- merge properties

  lemma PrefixTransitive<T>(a: seq<T>, b: seq<T>, c: seq<T>)
    requires a <= b && b <= c
    ensures a <= c
  {
    assert a == b[..|a|] && b == c[..|b|];
    assert a == c[..|a|];
  }

  /** A merge step keeps every key in place and only lets groups grow at their end. */
  lemma AddToGroupGrows(db: Db, key: string, item: Candidate)
    ensures var r := AddToGroup(db, key, item);
      && |db| <= |r| <= |db| + 1
      && forall i :: 0 <= i < |db| ==> r[i].key == db[i].key && db[i].candidates <= r[i].candidates
  {
  }

  /** A merge step leaves every group of another key alone. */
  lemma AddToGroupOthers(db: Db, key: string, item: Candidate)
    ensures var r := AddToGroup(db, key, item);
      forall i :: 0 <= i < |db| && db[i].key != key ==> r[i] == db[i]
  {
  }

  /** A merge step adds a group only for a missing key, holding just the item. */
  lemma AddToGroupNew(db: Db, key: string, item: Candidate)
    ensures var r := AddToGroup(db, key, item);
      |r| == |db| + 1 ==> Find(db, key).None? && r[|db|] == Group(key, [item])
  {
  }

  /** Append-only: no key is removed or moved, and each old group is a prefix of its new self. */
  lemma {:induction false} MergeGrows(db: Db, items: seq<Candidate>, keyOf: KeyOf)
    ensures var r := MergeAll(db, items, keyOf);
      && |db| <= |r|
      && forall i :: 0 <= i < |db| ==> r[i].key == db[i].key && db[i].candidates <= r[i].candidates
  {
    if items != [] {
      var last := items[|items| - 1];
      var m := MergeAll(db, items[..|items| - 1], keyOf);
      var r := AddToGroup(m, keyOf(last), last);
      assert MergeAll(db, items, keyOf) == r;
      MergeGrows(db, items[..|items| - 1], keyOf);
      AddToGroupGrows(m, keyOf(last), last);
      forall i | 0 <= i < |db|
        ensures db[i].candidates <= r[i].candidates
      {
        PrefixTransitive(db[i].candidates, m[i].candidates, r[i].candidates);
      }
    }
  }

  /** A group whose key is no item's key is unchanged by the merge. */
  lemma {:induction false} MergeLeavesOthers(db: Db, items: seq<Candidate>, keyOf: KeyOf, i: nat)
    requires i < |db|
    requires forall item :: item in items ==> keyOf(item) != db[i].key
    ensures i < |MergeAll(db, items, keyOf)| && MergeAll(db, items, keyOf)[i] == db[i]
  {
    if items != [] {
      var before := items[..|items| - 1];
      var last := items[|items| - 1];
      var m := MergeAll(db, before, keyOf);
      forall item | item in before
        ensures keyOf(item) != db[i].key
      {
        assert item in items;
      }
      MergeLeavesOthers(db, before, keyOf, i);
      assert last in items;
      var k := keyOf(last);
      assert MergeAll(db, items, keyOf) == AddToGroup(m, k, last);
      MergeGrows(db, before, keyOf);
      AddToGroupGrows(m, k, last);
      AddToGroupOthers(m, k, last);
    }
  }

  /** Every group the merge creates is keyed by some item's key. */
  lemma {:induction false} MergeNewKeys(db: Db, items: seq<Candidate>, keyOf: KeyOf)
    ensures var r := MergeAll(db, items, keyOf);
      forall i :: |db| <= i < |r| ==> exists j :: 0 <= j < |items| && r[i].key == keyOf(items[j])
  {
    if items != [] {
      var n := |items| - 1;
      var k := keyOf(items[n]);
      var m := MergeAll(db, items[..n], keyOf);
      var r := AddToGroup(m, k, items[n]);
      assert MergeAll(db, items, keyOf) == r;
      MergeNewKeys(db, items[..n], keyOf);
      assert var r := MergeAll(db, items[..n], keyOf);
        forall i :: |db| <= i < |r| ==> exists j :: 0 <= j < |items[..n]| && r[i].key == keyOf(items[..n][j]);
      AddToGroupGrows(m, k, items[n]);
      AddToGroupNew(m, k, items[n]);
      forall i | |db| <= i < |r|
        ensures exists j :: 0 <= j < |items| && r[i].key == keyOf(items[j])
      {
        if i == |m| {
          assert r[i].key == keyOf(items[n]);
        } else {
          assert |db| <= i < |m| && r[i].key == m[i].key;
          var j :| 0 <= j < |items[..n]| && m[i].key == keyOf(items[..n][j]);
          assert r[i].key == keyOf(items[j]);
        }
      }
    }
  }

  /** `url` is in the group with key `key`. */
  predicate PresentAt(db: Db, key: string, url: string) {
    var at := Find(db, key);
    at.Some? && HasUrl(db[at.value].candidates, url)
  }

  /** The item's url is in the group its key selects. */
  predicate Present(db: Db, item: Candidate, keyOf: KeyOf) {
    PresentAt(db, keyOf(item), item.url)
  }

  /** After one merge step the item's url is in the item's group. */
  lemma AddToGroupMakesPresent(db: Db, key: string, item: Candidate)
    ensures PresentAt(AddToGroup(db, key, item), key, item.url)
  {
    var r := AddToGroup(db, key, item);
    match Find(db, key)
    case None =>
      assert forall j :: 0 <= j < |db| ==> r[j].key == db[j].key;
      assert r[|db|].key == key;
      assert Find(r, key) == Some(|db|);
      assert item in r[|db|].candidates;
    case Some(i) =>
      AddToGroupGrows(db, key, item);
      assert Find(r, key) == Some(i);
      if !HasUrl(db[i].candidates, item.url) {
        assert r[i].candidates[|r[i].candidates| - 1] == item;
      }
  }

  /** A merge step never takes a url out of its group. */
  lemma AddToGroupKeepsPresent(db: Db, key: string, item: Candidate, other: string, url: string)
    requires PresentAt(db, other, url)
    ensures PresentAt(AddToGroup(db, key, item), other, url)
  {
    var r := AddToGroup(db, key, item);
    var i := Find(db, other).value;
    AddToGroupGrows(db, key, item);
    assert Find(r, other) == Some(i);
    var c :| c in db[i].candidates && c.url == url;
    assert db[i].candidates <= r[i].candidates;
    assert c in r[i].candidates;
  }

  /** After the merge every item's url is in the group of its key, `db[normalize(item["name"])]`
    * in the script. */
  lemma {:induction false} MergeMakesPresent(db: Db, items: seq<Candidate>, keyOf: KeyOf)
    ensures forall item :: item in items ==> Present(MergeAll(db, items, keyOf), item, keyOf)
  {
    if items != [] {
      var before := items[..|items| - 1];
      var last := items[|items| - 1];
      var m := MergeAll(db, before, keyOf);
      assert MergeAll(db, items, keyOf) == AddToGroup(m, keyOf(last), last);
      MergeMakesPresent(db, before, keyOf);
      forall item | item in items
        ensures Present(MergeAll(db, items, keyOf), item, keyOf)
      {
        if item == last {
          AddToGroupMakesPresent(m, keyOf(last), last);
        } else {
          assert item in before;
          AddToGroupKeepsPresent(m, keyOf(last), last, keyOf(item), item.url);
        }
      }
    }
  }

  /** Merging items that are all present already changes nothing. */
  lemma {:induction false} MergePresentIsNoop(db: Db, items: seq<Candidate>, keyOf: KeyOf)
    requires forall item :: item in items ==> Present(db, item, keyOf)
    ensures MergeAll(db, items, keyOf) == db
  {
    if items != [] {
      var before := items[..|items| - 1];
      forall item | item in before
        ensures Present(db, item, keyOf)
      {
        assert item in items;
      }
      MergePresentIsNoop(db, before, keyOf);
      assert Present(db, items[|items| - 1], keyOf);
    }
  }

  /** Merging the same healthy list a second time changes nothing. */
  lemma MergeIdempotent(db: Db, items: seq<Candidate>, keyOf: KeyOf)
    ensures MergeAll(MergeAll(db, items, keyOf), items, keyOf) == MergeAll(db, items, keyOf)
  {
    MergeMakesPresent(db, items, keyOf);
    MergePresentIsNoop(MergeAll(db, items, keyOf), items, keyOf);
  }

  lemma AddToGroupNoDuplicates(db: Db, key: string, item: Candidate)
    requires NoDuplicateUrls(db)
    ensures NoDuplicateUrls(AddToGroup(db, key, item))
  {
    var r := AddToGroup(db, key, item);
    forall g, i, j | g in r && 0 <= i < j < |g.candidates|
      ensures g.candidates[i].url != g.candidates[j].url
    {
      var k :| 0 <= k < |r| && r[k] == g;
      if k < |db| && g != db[k] {
        var was := db[k].candidates;
        assert !HasUrl(was, item.url);
        assert g.candidates == was + [item];
        if j == |was| {
          assert was[i] in was;
        } else {
          assert db[k] in db;
        }
      } else if k < |db| {
        assert db[k] in db;
      }
    }
  }

  /** If no group held a url twice before the merge, none does after: per-group deduplication. */
  lemma {:induction false} MergeNoDuplicates(db: Db, items: seq<Candidate>, keyOf: KeyOf)
    requires NoDuplicateUrls(db)
    ensures NoDuplicateUrls(MergeAll(db, items, keyOf))
  {
    if items != [] {
      var last := items[|items| - 1];
      MergeNoDuplicates(db, items[..|items| - 1], keyOf);
      AddToGroupNoDuplicates(MergeAll(db, items[..|items| - 1], keyOf), keyOf(last), last);
    }
  }

  lemma AddToGroupUniqueKeys(db: Db, key: string, item: Candidate)
    requires UniqueKeys(db)
    ensures UniqueKeys(AddToGroup(db, key, item))
  {
    AddToGroupGrows(db, key, item);
    AddToGroupNew(db, key, item);
  }

  /** The merge creates a group only for a key that is not there, so keys stay unique. */
  lemma {:induction false} MergeUniqueKeys(db: Db, items: seq<Candidate>, keyOf: KeyOf)
    requires UniqueKeys(db)
    ensures UniqueKeys(MergeAll(db, items, keyOf))
  {
    if items != [] {
      var last := items[|items| - 1];
      MergeUniqueKeys(db, items[..|items| - 1], keyOf);
      AddToGroupUniqueKeys(MergeAll(db, items[..|items| - 1], keyOf), keyOf(last), last);
    }
  }

  /** The script body after the catalogue fetch: check the streams, load the database,
    * merge. `None` when the database file cannot be opened (the script stops there). */
  method Ingest(streams: seq<Stream>, categories: seq<Category>, head: Prober, get: Prober,
                clock: nat -> string, file: StreamsFile) returns (saved: Option<Db>)
    ensures saved.None? <==> file == Unreadable
    ensures saved.Some? ==>
      saved.value
      == MergeAll(LoadDb(file).value, HealthyStreams(streams, CategoryMap(categories), head, get, clock), GroupKey)
  {
    var catMap := CategoryMap(categories);
    var healthy := CollectHealthy(streams, catMap, head, get, clock);
    var db := LoadDb(file);
    if db.None? {
      return None;
    }
    var merged := Merge(db.value, healthy);
    saved := Some(merged);
  }
}
