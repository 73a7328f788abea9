/**
 * Exercise notes: markdown files whose frontmatter carries the exercise's
 * name, equipment and the enrichment fields (MET value, calories per rep,
 * muscle groups).
 */
module ExerciseParser {
  import opened Text
  import opened Documents

  /** The fields an enrichment fills in. */
  function GetEnrichmentFields(): (r: seq<string>)
    ensures |r| == 3 && r[0] == "met_base" && r[1] == "cal_per_rep" && r[2] == "muscle_groups"
  {
    ["met_base", "cal_per_rep", "muscle_groups"]
  }

  /** The value is there: `d.get(k) is not None`. */
  predicate HasValue(d: Dict, k: string) {
    k in d && d[k] != Null
  }

  /**
   * The muscle-group list is there and non-empty:
   * `d.get('muscle_groups') and len(d.get('muscle_groups', [])) > 0`.
   */
  predicate HasMuscleGroups(d: Dict) {
    "muscle_groups" in d &&
    match d["muscle_groups"]
    case Strs(xs) => |xs| > 0
    case Str(s) => |s| > 0
    case _ => false
  }

  /** `needs_enrichment`: one of the three enrichment fields is missing. */
  predicate NeedsEnrichment(d: Dict) {
    !(HasValue(d, "met_base") && HasValue(d, "cal_per_rep") && HasMuscleGroups(d))
  }

  /** When a single enrichment field counts as missing. */
  predicate FieldMissing(d: Dict, field: string) {
    if field == "muscle_groups" then !HasMuscleGroups(d) else !HasValue(d, field)
  }

  /** An exercise needs enrichment exactly when one of the enrichment fields is missing. */
  lemma NeedsEnrichmentIffFieldMissing(d: Dict)
    ensures NeedsEnrichment(d) <==> exists i :: 0 <= i < |GetEnrichmentFields()| && FieldMissing(d, GetEnrichmentFields()[i])
  {
    var f := GetEnrichmentFields();
    if NeedsEnrichment(d) {
      if !HasValue(d, "met_base") { assert FieldMissing(d, f[0]); }
      else if !HasValue(d, "cal_per_rep") { assert FieldMissing(d, f[1]); }
      else { assert FieldMissing(d, f[2]); }
    }
  }

  /** Zero is a value: a note with a zero MET and zero calories per rep is enriched. */
  lemma ZeroValuesAreEnriched(d: Dict)
    requires "met_base" in d && d["met_base"] == Num(0.0)
    requires "cal_per_rep" in d && d["cal_per_rep"] == Num(0.0)
    requires HasMuscleGroups(d)
    ensures !NeedsEnrichment(d)
  {
  }

  /** The keys `parse_exercise_frontmatter` returns, and what each defaults to. */
  function FrontmatterDefault(k: string): Value {
    if k == "name" || k == "category" || k == "equipment" then Str("")
    else if k == "components" || k == "muscle_groups" then Strs([])
    else Null
  }

  const FrontmatterKeys: set<string> :=
    {"name", "category", "equipment", "components", "met_base", "cal_per_rep", "muscle_groups"}

  /**
   * `parse_exercise_frontmatter`: exactly the seven known keys, each taken from
   * the frontmatter when present (even when it is null) and defaulted otherwise.
   */
  function ParseExerciseFrontmatter(meta: Dict): (r: Dict)
    ensures r.Keys == FrontmatterKeys
    ensures forall k :: k in FrontmatterKeys && k in meta ==> r[k] == meta[k]
    ensures forall k :: k in FrontmatterKeys && k !in meta ==> r[k] == FrontmatterDefault(k)
  {
    map k | k in FrontmatterKeys :: Get(meta, k, FrontmatterDefault(k))
  }

  /**
   * A note with no enrichment in its frontmatter needs enrichment, and the
   * parsed frontmatter needs it exactly when the raw frontmatter does.
   */
  lemma ParsedNeedsEnrichment(meta: Dict)
    ensures NeedsEnrichment(ParseExerciseFrontmatter(meta)) == NeedsEnrichment(meta)
    ensures "met_base" !in meta ==> NeedsEnrichment(ParseExerciseFrontmatter(meta))
  {
  }

  /** `parse_exercise_file` on a loaded note: the frontmatter fields plus the stripped body. */
  function ParseExerciseFile(meta: Dict, body: string): (r: Dict)
    ensures r.Keys == FrontmatterKeys + {"description"}
    ensures r["description"] == Str(Strip(body))
    ensures forall k :: k in FrontmatterKeys ==> r[k] == ParseExerciseFrontmatter(meta)[k]
  {
    ParseExerciseFrontmatter(meta)["description" := Str(Strip(body))]
  }

  /** The frontmatter after an enrichment has been written into it. */
  function EnrichedMetadata(meta: Dict, data: Dict, updatedBy: string, now: string): Dict {
    CopyKeys(meta, data, GetEnrichmentFields())["last_updated" := Str(now)]["updated_by" := Str(updatedBy)]
  }

  /**
   * What `update_exercise_file` promises: the enrichment fields the data
   * carries replace the old ones, the stamp fields are set, and every other
   * key keeps its value.
   */
  lemma EnrichedMetadataFields(meta: Dict, data: Dict, updatedBy: string, now: string)
    ensures var r := EnrichedMetadata(meta, data, updatedBy, now);
      r["last_updated"] == Str(now) && r["updated_by"] == Str(updatedBy) &&
      (forall k :: k in GetEnrichmentFields() && k in data ==> k in r && r[k] == data[k]) &&
      (forall k :: k in meta && k !in GetEnrichmentFields() && k != "last_updated" && k != "updated_by" ==> k in r && r[k] == meta[k]) &&
      (forall k :: k in r ==> k in meta || k in data || k == "last_updated" || k == "updated_by")
  {
  }

  /** Writing a complete enrichment makes the note no longer need one. */
  lemma EnrichedNeedsNothing(meta: Dict, data: Dict, updatedBy: string, now: string)
    requires HasValue(data, "met_base") && HasValue(data, "cal_per_rep") && HasMuscleGroups(data)
    ensures !NeedsEnrichment(EnrichedMetadata(meta, data, updatedBy, now))
  {
    EnrichedMetadataSteps(meta, data, updatedBy, now);
    var r0 := CopyKey(meta, data, "met_base");
    var r1 := CopyKey(r0, data, "cal_per_rep");
    var r2 := CopyKey(r1, data, "muscle_groups");
    assert r2["met_base"] == data["met_base"] && r2["cal_per_rep"] == data["cal_per_rep"];
    assert r2["muscle_groups"] == data["muscle_groups"];
    var e := EnrichedMetadata(meta, data, updatedBy, now);
    assert e == r2["last_updated" := Str(now)]["updated_by" := Str(updatedBy)];
    SameFieldsSameNeed(e, data);
  }

  /** Whether enrichment is needed depends on the three enrichment fields alone. */
  lemma SameFieldsSameNeed(a: Dict, b: Dict)
    requires "met_base" in a && "met_base" in b && a["met_base"] == b["met_base"]
    requires "cal_per_rep" in a && "cal_per_rep" in b && a["cal_per_rep"] == b["cal_per_rep"]
    requires "muscle_groups" in a && "muscle_groups" in b && a["muscle_groups"] == b["muscle_groups"]
    ensures NeedsEnrichment(a) == NeedsEnrichment(b)
  {
  }

  /** The enriched frontmatter as the sequence of single updates the source performs. */
  lemma EnrichedMetadataSteps(meta: Dict, data: Dict, updatedBy: string, now: string)
    ensures EnrichedMetadata(meta, data, updatedBy, now) ==
      CopyKey(CopyKey(CopyKey(meta, data, "met_base"), data, "cal_per_rep"), data, "muscle_groups")
        ["last_updated" := Str(now)]["updated_by" := Str(updatedBy)]
  {
    CopyThreeKeys(meta, data, "met_base", "cal_per_rep", "muscle_groups");
  }

  /**
   * `update_exercise_file` on a loaded note: copy the enrichment fields,
   * stamp the update, and keep the body as it was.
   */
  method UpdateExerciseFile(post: Post, data: Dict, updatedBy: string, now: string)
    modifies post
    ensures post.metadata == EnrichedMetadata(old(post.metadata), data, updatedBy, now)
    ensures post.content == old(post.content)
  {
    var originalContent := post.content;
    EnrichedMetadataSteps(post.metadata, data, updatedBy, now);
    if "met_base" in data {
      post.metadata := post.metadata["met_base" := data["met_base"]];
    }
    if "cal_per_rep" in data {
      post.metadata := post.metadata["cal_per_rep" := data["cal_per_rep"]];
    }
    if "muscle_groups" in data {
      post.metadata := post.metadata["muscle_groups" := data["muscle_groups"]];
    }
    post.metadata := post.metadata["last_updated" := Str(now)];
    post.metadata := post.metadata["updated_by" := Str(updatedBy)];
    post.content := originalContent;
  }
}
