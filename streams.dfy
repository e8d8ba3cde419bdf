/**
 * The stream database `data/streams.json` that the ingestion script writes and the
 * guardian loop reads: a JSON object from channel key to a list of candidate streams,
 * kept here as a sequence of groups in the object's iteration (insertion) order.
 */
module Streams {
  import opened Wrappers

  /** One candidate stream of a channel. `addedAt` is the ISO-8601 ingestion time,
    * an opaque string; `None` when the record has no "added_at" field. */
  datatype Candidate = Candidate(url: string, name: string, category: string, addedAt: Option<string>)

  /** One entry of the database object: a channel key and its candidates. */
  datatype Group = Group(key: string, candidates: seq<Candidate>)

  /** The database, in dict iteration order. */
  type Db = seq<Group>

  /** A Python dict has each key once. */
  predicate UniqueKeys(db: Db) {
    forall i, j :: 0 <= i < j < |db| ==> db[i].key != db[j].key
  }

  /** Within each group no two candidates share a url. */
  predicate NoDuplicateUrls(db: Db) {
    forall g, i, j :: g in db && 0 <= i < j < |g.candidates| ==>
      g.candidates[i].url != g.candidates[j].url
  }

  /** A network request for a url: its final status, or `None` when it raised. */
  type Prober = string -> Option<int>

  /** What opening and parsing `data/streams.json` gives: no file, a file that cannot be
    * opened, a file on which `json.load` raises (invalid JSON or invalid UTF-8), or the
    * database. */
  datatype StreamsFile = Absent | Unreadable | Malformed | Parsed(db: Db)
}
