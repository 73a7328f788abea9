/**
 * Where exercise data comes from, in priority order: a local exercise note,
 * a JSON cache file, the search API, and a fixed fallback.
 *
 * The file system is a value: the cache directory is a map from path to file,
 * the exercises folder a listing of (file name, file) pairs in the order the
 * directory lists them. The API's answer and the clock are parameters.
 */
module ExerciseCache {
  import opened Text
  import opened Documents
  import opened Helpers
  import opened ExerciseParser

  /** `get_cache_path`: the sanitized name plus `.json`, inside the cache directory. */
  function GetCachePath(name: string, cacheDir: string): (r: string)
    ensures Basename(r) == SanitizeFilename(name) + ".json"
  {
    var file := SanitizeFilename(name) + ".json";
    NoSlashInCacheFile(SanitizeFilename(name));
    BasenameOfJoin(cacheDir, file);
    PathJoin(cacheDir, file)
  }

  lemma NoSlashInCacheFile(n: string)
    requires IsCleanName(n)
    ensures '/' !in n + ".json"
  {
    var f := n + ".json";
    forall i | 0 <= i < |f|
      ensures f[i] != '/'
    {
      if i < |n| {
        assert f[i] == n[i] && !IsForbidden(n[i]);
      } else {
        assert f[i] == ".json"[i - |n|];
      }
    }
  }

  /** Two exercise names share a cache file exactly when they sanitize alike. */
  lemma SameCacheFile(a: string, b: string, cacheDir: string)
    requires SanitizeFilename(a) == SanitizeFilename(b)
    ensures GetCachePath(a, cacheDir) == GetCachePath(b, cacheDir)
  {
  }

  // ---------------------------------------------------------------------
  // Cache files

  /** A cache file as JSON loading sees it. */
  datatype CacheFile = JsonObject(data: Dict) | Unreadable

  type CacheStore = map<string, CacheFile>

  const RequiredFields: seq<string> := ["name", "equipment", "met_base", "cal_per_rep", "muscle_groups"]

  predicate HasRequiredFields(d: Dict) {
    forall i :: 0 <= i < |RequiredFields| ==> RequiredFields[i] in d
  }

  /**
   * `load_from_cache`: the stored object when it holds every required field,
   * with `source` defaulting to "cache"; nothing when the file is missing,
   * unreadable or incomplete.
   */
  function LoadFromCache(store: CacheStore, path: string): (r: Option<Dict>)
    ensures r.Some? <==> path in store && store[path].JsonObject? && HasRequiredFields(store[path].data)
    ensures r.Some? ==> var d := store[path].data;
      r.value.Keys == d.Keys + {"source"} &&
      (forall k :: k in d && k != "source" ==> r.value[k] == d[k]) &&
      r.value["source"] == (if "source" in d then d["source"] else Str("cache"))
    ensures r.Some? ==> "equipment" in r.value && "met_base" in r.value && "source" in r.value
  {
    if path !in store then None
    else match store[path]
      case Unreadable => None
      case JsonObject(d) =>
        if HasRequiredFields(d) then
          assert RequiredFields[1] == "equipment" && RequiredFields[2] == "met_base";
          Some(d["source" := Get(d, "source", Str("cache"))])
        else None
  }

  /** The record `save_to_cache` writes: the data, a source (default "perplexity") and the fetch time. */
  function CacheRecord(data: Dict, now: string): (r: Dict)
    ensures r.Keys == data.Keys + {"source", "fetched_at"}
    ensures forall k :: k in data && k != "source" && k != "fetched_at" ==> r[k] == data[k]
    ensures r["source"] == Get(data, "source", Str("perplexity")) && r["fetched_at"] == Str(now)
  {
    data["source" := Get(data, "source", Str("perplexity"))]["fetched_at" := Str(now)]
  }

  /**
   * `save_to_cache`: when the directory can be written, the file at `path`
   * now holds the record and the answer is true; otherwise nothing changes
   * and the answer is false. No other file is touched.
   */
  function SaveToCache(store: CacheStore, path: string, data: Dict, now: string, writable: bool): (r: (CacheStore, bool))
    ensures r.1 == writable
    ensures r.1 ==> r.0 == store[path := JsonObject(CacheRecord(data, now))]
    ensures !r.1 ==> r.0 == store
    ensures forall p :: p != path ==> (p in r.0 <==> p in store) && (p in store ==> r.0[p] == store[p])
  {
    if writable then (store[path := JsonObject(CacheRecord(data, now))], true) else (store, false)
  }

  /**
   * Saving then loading gives back the saved record, with the source the
   * save filled in, as long as the record carries the required fields.
   */
  lemma SaveThenLoad(store: CacheStore, path: string, data: Dict, now: string)
    requires HasRequiredFields(data)
    ensures LoadFromCache(SaveToCache(store, path, data, now, true).0, path) == Some(CacheRecord(data, now))
  {
    var rec := CacheRecord(data, now);
    assert HasRequiredFields(rec);
    assert rec["source" := Get(rec, "source", Str("cache"))] == rec;
  }

  /** A record without the required fields is never served from the cache. */
  lemma IncompleteNotLoaded(store: CacheStore, path: string, data: Dict, now: string)
    requires "met_base" !in data
    ensures LoadFromCache(SaveToCache(store, path, data, now, true).0, path).None?
  {
    assert "met_base" !in CacheRecord(data, now);
    assert RequiredFields[2] == "met_base";
  }

  // ---------------------------------------------------------------------
  // Local exercise notes

  /** An exercise note as parsing sees it: frontmatter and body, or a failure to parse. */
  datatype ExerciseFile = Note(meta: Dict, body: string) | Unparsable

  type Listing = seq<(string, ExerciseFile)>

  predicate EndsWith(s: string, suffix: string) {
    |suffix| <= |s| && s[|s| - |suffix|..] == suffix
  }

  /**
   * `os.path.splitext(filename)[0]` for a name ending in `.md`: the name
   * without the extension, unless everything before it is dots.
   */
  function MdStem(filename: string): string
    requires EndsWith(filename, ".md")
  {
    var base := filename[..|filename| - 3];
    if forall i :: 0 <= i < |base| ==> base[i] == '.' then filename else base
  }

  /**
   * The name a note matches under: its frontmatter name when that is a
   * non-empty string, the file stem with underscores as spaces when the name
   * is empty; nothing when the name is some other value (the source's
   * `.lower()` raises and the note is skipped).
   */
  function NoteName(filename: string, d: Dict): Option<string>
    requires EndsWith(filename, ".md") && "name" in d
  {
    var v := d["name"];
    if !Truthy(v) then Some(ReplaceChar(MdStem(filename), '_', ' '))
    else if v.Str? then Some(v.s)
    else None
  }

  /** The body of the loop in `find_local_exercise`: does this directory entry match? */
  predicate EntryMatches(name: string, equipment: string, filename: string, file: ExerciseFile) {
    EndsWith(filename, ".md") && file.Note? &&
    var d := ParseExerciseFile(file.meta, file.body);
    var exName := NoteName(filename, d);
    exName.Some? && Lower(exName.value) == Lower(name) &&
    (equipment != [] && Truthy(d["equipment"]) ==>
      d["equipment"].Str? && Contains(Lower(d["equipment"].s), Lower(equipment)))
  }

  /** Which listed entries match. */
  function MatchFlags(name: string, equipment: string, entries: Listing): (r: seq<bool>)
    ensures |r| == |entries|
    ensures forall j :: 0 <= j < |entries| ==> r[j] == EntryMatches(name, equipment, entries[j].0, entries[j].1)
  {
    seq(|entries|, j requires 0 <= j < |entries| => EntryMatches(name, equipment, entries[j].0, entries[j].1))
  }

  /** The index of the first true flag at or after `from`. */
  function FirstTrue(flags: seq<bool>, from: nat): (r: Option<nat>)
    requires from <= |flags|
    decreases |flags| - from
    ensures r.Some? ==> from <= r.value < |flags| && flags[r.value]
    ensures r.Some? ==> forall j :: from <= j < r.value ==> !flags[j]
    ensures r.None? ==> forall j :: from <= j < |flags| ==> !flags[j]
  {
    if from == |flags| then None
    else if flags[from] then Some(from)
    else FirstTrue(flags, from + 1)
  }

  /** The index of the first matching entry. */
  function FirstLocalMatch(name: string, equipment: string, entries: Listing): (r: Option<nat>)
    ensures r.Some? ==> r.value < |entries| && EntryMatches(name, equipment, entries[r.value].0, entries[r.value].1)
    ensures r.Some? ==> forall j :: 0 <= j < r.value ==> !EntryMatches(name, equipment, entries[j].0, entries[j].1)
    ensures r.None? ==> forall j :: 0 <= j < |entries| ==> !EntryMatches(name, equipment, entries[j].0, entries[j].1)
  {
    FirstTrue(MatchFlags(name, equipment, entries), 0)
  }

  /**
   * `find_local_exercise`: the path of the first listed note whose name
   * matches (ignoring case) and whose equipment contains the requested one
   * when both are given; nothing when the folder does not exist or no note
   * matches.
   */
  method FindLocalExercise(name: string, equipment: string, folderPath: string, folder: Option<Listing>)
    returns (r: Option<string>)
    ensures folder.None? ==> r.None?
    ensures folder.Some? ==> match FirstLocalMatch(name, equipment, folder.value)
      case None => r.None?
      case Some(i) => r == Some(PathJoin(folderPath, folder.value[i].0))
  {
    if folder.None? {
      return None;
    }
    var entries := folder.value;
    ghost var flags := MatchFlags(name, equipment, entries);
    var i := 0;
    while i < |entries|
      invariant 0 <= i <= |entries|
      invariant FirstTrue(flags, 0) == FirstTrue(flags, i)
    {
      var (filename, file) := entries[i];
      if EntryMatches(name, equipment, filename, file) {
        return Some(PathJoin(folderPath, filename));
      }
      i := i + 1;
    }
    return None;
  }

  // ---------------------------------------------------------------------
  // The lookup cascade

  /** What the search API did: answered with a dictionary, or raised with a message. */
  datatype ApiOutcome = Answered(answer: Dict) | Failed(message: string)

  /** The record built from a local note that needs no enrichment. */
  function LocalRecord(d: Dict): Dict
    requires FrontmatterKeys + {"description"} <= d.Keys
  {
    map[
      "name" := d["name"], "equipment" := d["equipment"], "met_base" := d["met_base"],
      "cal_per_rep" := d["cal_per_rep"], "muscle_groups" := d["muscle_groups"],
      "source" := Str("local"), "description" := d["description"]]
  }

  /** What `parse_exercise_file` reads from a parsable note. */
  function NoteData(file: ExerciseFile): Dict
    requires file.Note?
  {
    ParseExerciseFile(file.meta, file.body)
  }

  /** The local note that answers the lookup, if any (step 1 of `get_exercise_data`). */
  function LocalHit(name: string, equipment: string, folderPath: string, folder: Option<Listing>, forceRefresh: bool): (r: Option<Dict>)
    ensures r.Some? ==> "met_base" in r.value && "source" in r.value && r.value["source"] == Str("local")
    ensures r.Some? ==> !forceRefresh && folderPath != [] && folder.Some?
    ensures r.Some? <==> (
      folderPath != [] && !forceRefresh && folder.Some? &&
      FirstLocalMatch(name, equipment, folder.value).Some? &&
      !NeedsEnrichment(NoteData(folder.value[FirstLocalMatch(name, equipment, folder.value).value].1)))
    ensures r.Some? ==>
      r.value == LocalRecord(NoteData(folder.value[FirstLocalMatch(name, equipment, folder.value).value].1))
  {
    if folderPath == [] || forceRefresh || folder.None? then None
    else match FirstLocalMatch(name, equipment, folder.value)
      case None => None
      case Some(i) =>
        var d := NoteData(folder.value[i].1);
        if NeedsEnrichment(d) then None else Some(LocalRecord(d))
  }

  /**
   * The cache check's equipment rule: a record is usable when either side has
   * no equipment, or one equipment contains the other, ignoring case.
   */
  predicate CachedEquipmentFits(equipment: string, cached: Value) {
    equipment == [] || !Truthy(cached) ||
    (cached.Str? && (Contains(Lower(cached.s), Lower(equipment)) || Contains(Lower(equipment), Lower(cached.s))))
  }

  /** The cached record that answers the lookup, if any (step 2). */
  function CacheHit(name: string, equipment: string, cacheDir: string, store: CacheStore, forceRefresh: bool): (r: Option<Dict>)
    ensures r.Some? ==> !forceRefresh && LoadFromCache(store, GetCachePath(name, cacheDir)) == r
    ensures r.Some? ==> "met_base" in r.value && "source" in r.value
    ensures r.Some? <==> (
      !forceRefresh && LoadFromCache(store, GetCachePath(name, cacheDir)).Some? &&
      CachedEquipmentFits(equipment, LoadFromCache(store, GetCachePath(name, cacheDir)).value["equipment"]))
  {
    if forceRefresh then None
    else match LoadFromCache(store, GetCachePath(name, cacheDir))
      case None => None
      case Some(d) =>
        if CachedEquipmentFits(equipment, d["equipment"]) then Some(d) else None
  }

  /** The record built from an API answer (step 3): a missing MET becomes 8.0. */
  function ApiRecord(name: string, equipment: string, answer: Dict): (r: Dict)
    ensures r.Keys == {"name", "equipment", "met_base", "cal_per_rep", "muscle_groups", "source", "reasoning"}
    ensures r["name"] == Str(name) && r["equipment"] == Str(equipment)
    ensures r["met_base"] != Null && r["source"] == Str("perplexity")
  {
    var met := Get(answer, "met_base", Null);
    map[
      "name" := Str(name), "equipment" := Str(equipment),
      "met_base" := (if met == Null then Num(8.0) else met),
      "cal_per_rep" := Get(answer, "cal_per_rep", Null),
      "muscle_groups" := Get(answer, "muscle_groups", Strs([])),
      "source" := Str("perplexity"),
      "reasoning" := Get(answer, "reasoning", Str(""))]
  }

  /** The record returned when the API fails (step 4). */
  function FallbackRecord(name: string, equipment: string, message: string): (r: Dict)
    ensures "met_base" in r && "cal_per_rep" in r && "source" in r
    ensures r["met_base"] == Num(8.0) && r["cal_per_rep"] == Num(0.0) && r["source"] == Str("fallback")
  {
    map[
      "name" := Str(name), "equipment" := Str(equipment), "met_base" := Num(8.0),
      "cal_per_rep" := Num(0.0), "muscle_groups" := Strs([]), "source" := Str("fallback"),
      "reasoning" := Str("API error: " + message)]
  }

  /**
   * `get_exercise_data`: the first of local note, cache and API that answers,
   * else the fallback; the answer and the cache directory afterwards.
   */
  function GetExerciseData(
    name: string, equipment: string, cacheDir: string, folderPath: string, folder: Option<Listing>,
    forceRefresh: bool, store: CacheStore, api: ApiOutcome, writable: bool, now: string): (r: (Dict, CacheStore))
    ensures "met_base" in r.0 && "source" in r.0
    ensures LocalHit(name, equipment, folderPath, folder, forceRefresh).Some? ==> r.0["source"] == Str("local") && r.1 == store
    ensures LocalHit(name, equipment, folderPath, folder, forceRefresh).Some? ==>
      r == (LocalHit(name, equipment, folderPath, folder, forceRefresh).value, store)
    ensures forceRefresh ==> r.0["source"] == Str("perplexity") || r.0["source"] == Str("fallback")
    ensures r.1 != store ==> api.Answered? && writable && r.1 == store[GetCachePath(name, cacheDir) := JsonObject(CacheRecord(r.0, now))]
    ensures LocalHit(name, equipment, folderPath, folder, forceRefresh).None? &&
            CacheHit(name, equipment, cacheDir, store, forceRefresh).Some? ==>
      r == (CacheHit(name, equipment, cacheDir, store, forceRefresh).value, store)
    ensures LocalHit(name, equipment, folderPath, folder, forceRefresh).None? &&
            CacheHit(name, equipment, cacheDir, store, forceRefresh).None? && api.Answered? ==>
      r.0 == ApiRecord(name, equipment, api.answer) &&
      r.1 == (if writable then store[GetCachePath(name, cacheDir) := JsonObject(CacheRecord(r.0, now))] else store)
    ensures LocalHit(name, equipment, folderPath, folder, forceRefresh).None? &&
            CacheHit(name, equipment, cacheDir, store, forceRefresh).None? && api.Failed? ==>
      r == (FallbackRecord(name, equipment, api.message), store)
  {
    match LocalHit(name, equipment, folderPath, folder, forceRefresh)
    case Some(local) => (local, store)
    case None =>
      match CacheHit(name, equipment, cacheDir, store, forceRefresh)
      case Some(cached) => (cached, store)
      case None =>
        match api
        case Answered(answer) =>
          var record := ApiRecord(name, equipment, answer);
          (record, SaveToCache(store, GetCachePath(name, cacheDir), record, now, writable).0)
        case Failed(message) => (FallbackRecord(name, equipment, message), store)
  }

  /** With no usable local note, a usable cached record wins over the API. */
  lemma CacheBeforeApi(
    name: string, equipment: string, cacheDir: string, folderPath: string, folder: Option<Listing>,
    store: CacheStore, api: ApiOutcome, writable: bool, now: string)
    requires LocalHit(name, equipment, folderPath, folder, false).None?
    requires CacheHit(name, equipment, cacheDir, store, false).Some?
    ensures GetExerciseData(name, equipment, cacheDir, folderPath, folder, false, store, api, writable, now) ==
      (CacheHit(name, equipment, cacheDir, store, false).value, store)
  {
  }

  /**
   * What the API answered is served from the cache by the next lookup: the
   * saved record has every required field and its own equipment fits.
   */
  lemma ApiAnswerServedFromCache(name: string, equipment: string, cacheDir: string, store: CacheStore, answer: Dict, now: string)
    ensures var path := GetCachePath(name, cacheDir);
      var rec := ApiRecord(name, equipment, answer);
      CacheHit(name, equipment, cacheDir, SaveToCache(store, path, rec, now, true).0, false) == Some(CacheRecord(rec, now))
  {
    var path := GetCachePath(name, cacheDir);
    var rec := ApiRecord(name, equipment, answer);
    var saved := CacheRecord(rec, now);
    assert HasRequiredFields(rec);
    SaveThenLoad(store, path, rec, now);
    assert LoadFromCache(SaveToCache(store, path, rec, now, true).0, path) == Some(saved);
    assert saved["equipment"] == Str(equipment);
    ContainsSelf(Lower(equipment));
    assert CachedEquipmentFits(equipment, saved["equipment"]);
  }

  /**
   * The first matching note of the listing answers the lookup with its own
   * record when it is fully enriched; later notes are not looked at.
   */
  lemma LocalNoteWins(
    name: string, equipment: string, cacheDir: string, folderPath: string, entries: Listing, j: nat,
    store: CacheStore, api: ApiOutcome, writable: bool, now: string)
    requires folderPath != []
    requires j < |entries| && EntryMatches(name, equipment, entries[j].0, entries[j].1)
    requires forall k :: 0 <= k < j ==> !EntryMatches(name, equipment, entries[k].0, entries[k].1)
    requires !NeedsEnrichment(NoteData(entries[j].1))
    ensures GetExerciseData(name, equipment, cacheDir, folderPath, Some(entries), false, store, api, writable, now) ==
      (LocalRecord(NoteData(entries[j].1)), store)
  {
    FirstMatchIs(name, equipment, entries, j);
  }

  /**
   * When the first matching note still needs enrichment, the lookup goes on
   * as if there were no exercises folder, even if a later note matches and
   * is enriched.
   */
  lemma StaleLocalNoteSkipped(
    name: string, equipment: string, cacheDir: string, folderPath: string, entries: Listing, j: nat,
    forceRefresh: bool, store: CacheStore, api: ApiOutcome, writable: bool, now: string)
    requires j < |entries| && EntryMatches(name, equipment, entries[j].0, entries[j].1)
    requires forall k :: 0 <= k < j ==> !EntryMatches(name, equipment, entries[k].0, entries[k].1)
    requires NeedsEnrichment(NoteData(entries[j].1))
    ensures GetExerciseData(name, equipment, cacheDir, folderPath, Some(entries), forceRefresh, store, api, writable, now) ==
      GetExerciseData(name, equipment, cacheDir, folderPath, None, forceRefresh, store, api, writable, now)
  {
    FirstMatchIs(name, equipment, entries, j);
  }

  lemma FirstMatchIs(name: string, equipment: string, entries: Listing, j: nat)
    requires j < |entries| && EntryMatches(name, equipment, entries[j].0, entries[j].1)
    requires forall k :: 0 <= k < j ==> !EntryMatches(name, equipment, entries[k].0, entries[k].1)
    ensures FirstLocalMatch(name, equipment, entries) == Some(j)
  {
  }

  /**
   * A cached record whose equipment neither contains nor is contained in the
   * requested one is not served: the lookup asks the API, or falls back.
   */
  lemma MismatchedCacheSkipped(
    name: string, equipment: string, cacheDir: string, folderPath: string, folder: Option<Listing>,
    store: CacheStore, api: ApiOutcome, writable: bool, now: string, cached: string)
    requires LocalHit(name, equipment, folderPath, folder, false).None?
    requires LoadFromCache(store, GetCachePath(name, cacheDir)).Some?
    requires LoadFromCache(store, GetCachePath(name, cacheDir)).value["equipment"] == Str(cached)
    requires equipment != [] && cached != []
    requires !Contains(Lower(cached), Lower(equipment)) && !Contains(Lower(equipment), Lower(cached))
    ensures GetExerciseData(name, equipment, cacheDir, folderPath, folder, false, store, api, writable, now).0 ==
      match api
      case Answered(answer) => ApiRecord(name, equipment, answer)
      case Failed(message) => FallbackRecord(name, equipment, message)
  {
  }
}
