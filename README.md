# Workout analyzer, modelled in Dafny

The workout analyzer reads markdown workout notes about kettlebell and
bodyweight training. Most of the notes are in Russian. It works out the
scheme of each workout: the rep ladder, the rounds and the timing. It
lists the exercises with their equipment and their reps per round. It
looks up each exercise's intensity (MET value, calories per rep, muscle
groups) from a local exercise note, a JSON cache or a search API, in that
order. It computes calories, totals and a volume-weighted muscle balance.
It builds a prompt for a language model, cleans the model's reply, and
writes an `## AI Analysis` section back into the note.

This project models that text-to-numbers pipeline. It also models the
string rewriting around it and the small validators and normalisers the
pipeline relies on. The modules are:

- `Text`, `Numeric`, `Documents`: Python's string operations and rounding,
  and frontmatter/JSON values. `Text` also holds the two drivers that play
  `re.search` and `re.sub` over hand-written pattern matchers.
- `Helpers`: `sanitize_filename` and the part of `os.path.join` the cache uses.
- `ExerciseParser`: exercise notes. It covers `needs_enrichment`, the
  frontmatter defaults and the enrichment update.
- `ExerciseCache`: cache paths, validation of cache records, and matching
  of local notes. It also covers the priority order local → cache → API →
  fallback, which `get_exercise_data` follows.
- `WorkoutScheme`: `extract_scheme`.
- `WorkoutExercises`: `extract_exercises`.
- `WorkoutParser`: durations, how reps are handed out to the exercises,
  the workout record, the summary and the metadata.
- `WorkoutAnalysis`: `needs_analysis` and the content rewrite of
  `update_workout_analysis`.
- `Calories`: the calorie cascade, the workout totals and the muscle balance.
- `MarkdownWriter`: section removal, collapsing of blank lines, the
  appended section, the calorie table and the exercise-note update.
- `Prompts`: the computed parts of the prompt, and the cleaning of the
  model's reply.

Code that steps through a loop stays a loop in the model. Each such
method is proved against a function that states what it computes:

- `ExtractExercises` computes `ExercisesOf`;
- `TallyExercises`, `AccumulateVolumes` and `Summarize` compute their
  counts and sums;
- `FormatAnalysisSection` and `WriteCalorieSummary` build the lines and rows;
- `ExerciseLines` builds the numbered exercise list.

Objects that the source updates in place are classes. A note is a
`Documents.Post` with `metadata` and `content` fields. Each regular
expression is a scanner. The scanner follows Python's greedy and lazy
backtracking for that one pattern.

Three facts about the code shape the model:

- The exercise scan of `extract_exercises` stops at the first analysis
  heading. The analysis section is not removed before the scan.
- The scheme is read only by the regular expressions of `extract_scheme`.
- Where a pattern does not do what the code around it evidently intends,
  the model follows the code as written. Those members end in
  `AsWritten`, and the pipeline uses them. The intended reading is
  defined beside each one, with its property proved (see Findings).

## Model

| member | source | states |
|---|---|---|
| Helpers.RemoveForbidden | utils/helpers.py:29 | no character of the result is one of `\ / * ? " : < > \|`, and lower-case text stays lower-case |
| Helpers.UnderscoreSpaces | utils/helpers.py:30 | the result holds no whitespace; clean text in gives a clean name out |
| Helpers.SanitizeFilename | utils/helpers.py:22-31 | the result is lower-case, holds no whitespace and none of the forbidden characters |
| Helpers.StripKeepsLower | utils/helpers.py:28 | stripping lower-case text keeps it lower-case |
| Helpers.SanitizeCleanName | utils/helpers.py:28-31 | a name already in file-name form comes back unchanged |
| Helpers.SanitizeIdempotent | utils/helpers.py:28-31 | sanitizing twice is the same as sanitizing once |
| Helpers.UnderscoreSplit | utils/helpers.py:30 | the whitespace substitution works on each side of a boundary that is not inside a run of whitespace separately |
| Helpers.UnderscoreOneRun | utils/helpers.py:30 | each maximal run of whitespace between non-space text becomes exactly one `_` |
| Helpers.PathJoin | cache/exercise_cache.py:33 | an absolute file name replaces the directory; otherwise the result is the directory, a slash where needed, and the file name |
| Helpers.BasenameOfJoin | cache/exercise_cache.py:33 | a slash-free file name joined onto any directory is the last component of the path |
| ExerciseCache.GetCachePath | cache/exercise_cache.py:21-33 | the file name in the path is the sanitized exercise name followed by `.json` |
| ExerciseCache.SameCacheFile | cache/exercise_cache.py:32-33 | two names share a cache file whenever they sanitize alike |
| ExerciseCache.LoadFromCache | cache/exercise_cache.py:36-62 | a record is loaded iff the file exists, parses to an object and holds all five required fields; it then keeps every stored field and gains `source`, defaulting to "cache" |
| ExerciseCache.CacheRecord | cache/exercise_cache.py:81-85 | the written record keeps every input field, with `source` defaulting to "perplexity" and `fetched_at` stamped with the given time |
| ExerciseCache.SaveToCache | cache/exercise_cache.py:65-93 | when the directory is writable, exactly the file at the path changes and holds the record, and the result is true; otherwise nothing changes and the result is false |
| ExerciseCache.SaveThenLoad | cache/exercise_cache.py:54-85 | loading a record that was just saved with the required fields gives back the saved record |
| ExerciseCache.IncompleteNotLoaded | cache/exercise_cache.py:54-56 | a saved record without `met_base` is never loaded |
| ExerciseCache.MatchFlags | cache/exercise_cache.py:112-138 | one match flag per listed note, in listing order |
| ExerciseCache.FirstLocalMatch | cache/exercise_cache.py:112-142 | the index of the first matching note, with no match before it; nothing when no note matches |
| ExerciseCache.FindLocalExercise | cache/exercise_cache.py:96-142 | nothing for a missing folder; otherwise the joined path of the first note whose name matches ignoring case and whose equipment contains the query's when both are given |
| ExerciseCache.LocalHit | cache/exercise_cache.py:177-195 | a local answer happens iff a folder is given, `force_refresh` is off, the folder exists, some note matches and the first matching note needs no enrichment; the answer is then that note's record, with source "local" |
| ExerciseCache.CacheHit | cache/exercise_cache.py:198-208 | a cached answer happens iff `force_refresh` is off, the name's cache file loads, and its equipment fits the query: the query or the cached value is empty, or one contains the other ignoring case; the answer is the loaded record |
| ExerciseCache.ApiRecord | cache/exercise_cache.py:215-227 | the API record has exactly the seven keys, the query's name and equipment, source "perplexity", and a `met_base` that is never None |
| ExerciseCache.FallbackRecord | cache/exercise_cache.py:239-247 | the fallback has `met_base` 8.0, `cal_per_rep` 0.0 and source "fallback" |
| ExerciseCache.GetExerciseData | cache/exercise_cache.py:145-247 | the answer always has `met_base` and `source`; a local hit is returned as it is and leaves the cache alone; `force_refresh` always goes to the API or the fallback; without a local hit a cache hit is returned with the cache unchanged; otherwise the API's answer is returned and, when the cache is writable, stored at the name's cache file; a failed API call gives the fallback record and leaves the cache alone; the cache changes only when the API answered |
| ExerciseCache.CacheBeforeApi | cache/exercise_cache.py:197-208 | with no local answer, a usable cached record is returned and the cache is not touched |
| ExerciseCache.ApiAnswerServedFromCache | cache/exercise_cache.py:203-231 | what the API answered is served from the cache by the next lookup for the same name and equipment |
| ExerciseCache.LocalNoteWins | cache/exercise_cache.py:177-195 | when the first matching note of the listing is fully enriched, the lookup returns that note's record and leaves the cache alone |
| ExerciseCache.StaleLocalNoteSkipped | cache/exercise_cache.py:178-184 | when the first matching note needs enrichment, the lookup goes on as if there were no folder, whatever later notes hold |
| ExerciseCache.MismatchedCacheSkipped | cache/exercise_cache.py:203-208 | a cached record whose equipment neither contains nor is contained in the query's is passed over for the API answer or the fallback |
| ExerciseParser.GetEnrichmentFields | parsers/exercise_parser.py:112-119 | exactly `met_base`, `cal_per_rep`, `muscle_groups`, in that order |
| ExerciseParser.NeedsEnrichmentIffFieldMissing | parsers/exercise_parser.py:95-119 | enrichment is needed iff one of the fields `get_enrichment_fields` lists is missing (None, absent, or an empty muscle list) |
| ExerciseParser.ZeroValuesAreEnriched | parsers/exercise_parser.py:105-106 | zero-valued `met_base` and `cal_per_rep` count as present |
| ExerciseParser.ParseExerciseFrontmatter | parsers/exercise_parser.py:122-140 | exactly the seven known keys; each is taken from the frontmatter when present and otherwise defaults to `''`, `[]` or None |
| ExerciseParser.ParsedNeedsEnrichment | parsers/exercise_parser.py:36-109 | parsing the frontmatter does not change whether enrichment is needed; a note without `met_base` needs it |
| ExerciseParser.ParseExerciseFile | parsers/exercise_parser.py:9-47 | the frontmatter fields as `parse_exercise_frontmatter` gives them, plus `description`, the stripped body |
| ExerciseParser.EnrichedMetadataFields | parsers/exercise_parser.py:72-84 | the enrichment fields the data carries replace the old ones; `last_updated` and `updated_by` are set; every other key keeps its value; no other key appears |
| ExerciseParser.EnrichedNeedsNothing | parsers/exercise_parser.py:72-109 | after a complete enrichment is written, the note no longer needs enrichment |
| ExerciseParser.SameFieldsSameNeed | parsers/exercise_parser.py:105-109 | whether enrichment is needed depends on the three enrichment fields alone |
| ExerciseParser.EnrichedMetadataSteps | parsers/exercise_parser.py:73-84 | the new frontmatter equals the source's three conditional copies followed by the two stamps |
| ExerciseParser.UpdateExerciseFile | parsers/exercise_parser.py:50-92 | the note's frontmatter becomes the enriched frontmatter, and its body is written back unchanged |
| Documents.CopyKeys | parsers/exercise_parser.py:73-80 | a key is in the result iff it was in the target or is a listed key the source holds; listed keys present in the source take the source's value, and every other key keeps its value |
| Documents.CopyThreeKeys | parsers/exercise_parser.py:73-80 | copying three keys is three single conditional copies in a row |
| WorkoutParser.MinSec | parsers/workout_parser.py:28-33 | a `m:ss` reading is found only in text holding a colon |
| WorkoutParser.ParseDuration | parsers/workout_parser.py:13-63 | the loop that adds up the hour, minute and second tokens computes the duration `DurationOf` defines, with the same results for None, numbers, blank text, `m:ss`, tokens and plain numbers |
| WorkoutParser.ParseDurationText | parsers/workout_parser.py:24-63 | the token accumulation on the stripped, lower-cased text computes `DurationText` |
| WorkoutParser.DurationOfMissing | parsers/workout_parser.py:20-26 | None and blank text give no duration, and a number is taken as it is |
| WorkoutParser.DurationOfMinSec | parsers/workout_parser.py:28-33 | `m:ss` is m minutes plus ss/60 |
| WorkoutParser.MinSecWritten | parsers/workout_parser.py:29-33 | the `^(\d+):(\d+)$` match reads back the two numbers written around a colon |
| WorkoutParser.MinSecText | parsers/workout_parser.py:24 | digits around a colon are unchanged by strip and lower |
| WorkoutParser.TokenAt | parsers/workout_parser.py:39-51 | in `N`, whitespace, then a word, a token pattern `(\d+)\s*(?:units)` matches at a digit of `N` iff the word starts with one of the units, and at the first digit it reads `N` |
| WorkoutParser.SingleToken | parsers/workout_parser.py:38-54 | in `N word`, each of the hour, minute and second searches finds `N` iff the word starts with one of its units, and finds nothing otherwise |
| WorkoutParser.TwoTokenFirst | parsers/workout_parser.py:38-54 | in `N1 w1 N2 w2`, a search finds `N1` when `w1` starts with one of its units, else `N2` when `w2` does, else nothing: the leftmost match wins |
| WorkoutParser.TokensDecide | parsers/workout_parser.py:35-63 | text that is no `m:ss` is read by its tokens, as the rounded sum of hours times 60, minutes and seconds over 60 when any is found, and by `float()` otherwise |
| WorkoutParser.MinutesToken | parsers/workout_parser.py:45-57 | `N минут` and `Nминут` are N minutes |
| WorkoutParser.ShortMinutesToken | parsers/workout_parser.py:45-57 | `N мин` and `Nмин` are N minutes |
| WorkoutParser.SecondsToken | parsers/workout_parser.py:51-57 | `N сек` and `Nсек` are N/60 minutes rounded to two places |
| WorkoutParser.HoursToken | parsers/workout_parser.py:39-57 | `N ч` and `Nч` are 60·N minutes |
| WorkoutParser.HoursAndMinutes | parsers/workout_parser.py:38-57 | `H ч M мин` is 60·H + M minutes |
| WorkoutParser.MinutesAndSeconds | parsers/workout_parser.py:44-57 | `M минут S секунд` is M + S/60 minutes rounded to two places |
| WorkoutParser.PlainNumberFallsBack | parsers/workout_parser.py:59-63 | a bare number holds no token, so it is left to `float()` |
| WorkoutParser.DistributeReps | parsers/workout_parser.py:91-114 | the loops hand reps out as the three-case rule says: per-round reps times the rounds with the total recounted, otherwise the pattern total for every exercise, otherwise 0 |
| WorkoutParser.PerRoundTotal | parsers/workout_parser.py:99-107 | with per-round reps, the new total is the number of rounds times the sum of the per-round reps, and no exercise gets negative reps |
| WorkoutParser.SumHandedScaled | parsers/workout_parser.py:103-106 | the reps handed out add up to the rounds times the per-round sum |
| WorkoutParser.DistributedUnique | parsers/workout_parser.py:91-114 | the distribution is determined by the exercises and the scheme |
| WorkoutParser.DistributedKeepsScheme | parsers/workout_parser.py:99-114 | handing out the reps changes only the scheme's total |
| WorkoutParser.DurationBeforeTime | parsers/workout_parser.py:125-141 | when `duration` is present, `time` is ignored |
| WorkoutParser.DurationOutsideEmom | parsers/workout_parser.py:125-149 | outside EMOM the duration is the parsed `duration` when present, else the parsed `time`, else none |
| WorkoutParser.EmomDuration | parsers/workout_parser.py:128-138 | for an EMOM a positive `duration` is multiplied by the rounds exactly when there is more than one round and it is under half a minute per round; otherwise it is kept |
| WorkoutParser.MultiplyGrows | parsers/workout_parser.py:135-136 | multiplying a positive duration by two or more rounds makes it longer |
| WorkoutParser.EmomTime | parsers/workout_parser.py:141-145 | for an EMOM without `duration`, a non-zero `time` is per round and is multiplied by the rounds |
| WorkoutParser.NoDurationKeys | parsers/workout_parser.py:148-149 | with neither key there is no duration |
| WorkoutParser.ParseWorkoutFile | parsers/workout_parser.py:66-163 | the record holds the scheme, the exercises with their reps handed out, the duration and the frontmatter fields, as `IsWorkoutOf` relates them to the note |
| WorkoutParser.WorkoutDefaults | parsers/workout_parser.py:152-160 | without `weight` the weight is 70, without `date` the date is `''`, there is one exercise per extracted line, and the body is kept as read |
| WorkoutParser.SummaryParts | parsers/workout_parser.py:578-595 | at most five parts and none empty; there are no parts iff date, type, scheme type, exercises and total are all falsy |
| WorkoutParser.WorkoutSummary | parsers/workout_parser.py:568-597 | the summary is empty iff there are no parts |
| WorkoutParser.JoinNonEmpty | parsers/workout_parser.py:597 | joining non-empty parts is empty only when there are none |
| WorkoutParser.SummaryOfExercisesOnly | parsers/workout_parser.py:590-592 | a workout with only exercises is summarised as `Упражнений: n` |
| WorkoutParser.DateAt | parsers/workout_parser.py:613 | a date matches at a position iff `\d{4}-\d{2}-\d{2}` starts there, and it is those ten characters |
| WorkoutParser.NotesEnd | parsers/workout_parser.py:623 | the lazy notes text stops at the first position where the lookahead holds |
| WorkoutParser.MetadataDate | parsers/workout_parser.py:612-615 | a date is found iff the body holds one, and it is the first one |
| WorkoutParser.MetadataWeight | parsers/workout_parser.py:617-620 | `вес: N` at the start of the body gives weight N |
| WorkoutParser.LowerDigitsAfterMarker | parsers/workout_parser.py:618 | lower-casing keeps the marker and the digits |
| WorkoutParser.WeightAtMarker | parsers/workout_parser.py:618 | the weight pattern at the marker reads N |
| WorkoutParser.NotesEndNoNewline | parsers/workout_parser.py:623 | without a newline after it, the notes text runs to the end |
| WorkoutParser.MetadataNotes | parsers/workout_parser.py:622-625 | ` notes: text` on a single line gives the stripped text |
| WorkoutParser.NotesGiveBackLetter | parsers/workout_parser.py:623 | a body that is just ` notes` gets the notes `s`, because the optional `s?` gives its letter back to `(.+?)` |
| WorkoutAnalysis.TitleEnd | parsers/workout_parser.py:539-541 | `##\s*AI\s*Analysis` ignoring case: a match ends at least twelve characters after it starts, inside the text |
| WorkoutAnalysis.BodyStartAsWritten | parsers/workout_parser.py:539-541 | the greedy `\s*\n` after the title, as written: the body starts after the last newline of the whitespace run, past the title |
| WorkoutAnalysis.BodyStart | parsers/workout_parser.py:539-541 | corrected: the body starts after the first newline following the title |
| WorkoutAnalysis.BodyEnd | parsers/workout_parser.py:502 | the lazy body stops at the first `\n##\s`, `\n#\s` or end of text at or after its start |
| WorkoutAnalysis.SpanEnd | parsers/workout_parser.py:541 | the lazy section span stops at the first `\n##\s`, `\n#\s` or end of text at or after its start |
| WorkoutAnalysis.SectionAtAsWritten | parsers/workout_parser.py:539-543 | a removed section, as written, ends after its start and inside the text |
| WorkoutAnalysis.SectionAt | parsers/workout_parser.py:539-543 | a removed section, corrected, ends after its start and inside the text |
| WorkoutAnalysis.CommentAt | parsers/workout_parser.py:514 | `<!--.*?-->` ends after the first `-->` behind its opening |
| WorkoutAnalysis.NeedsAnalysisAsWritten | parsers/workout_parser.py:498-518 | `needs_analysis` as written: a note with no match of the heading pattern needs analysis |
| WorkoutAnalysis.NeedsAnalysis | parsers/workout_parser.py:498-518 | corrected `needs_analysis`: a note with no match of the corrected heading pattern needs analysis |
| WorkoutAnalysis.UpdateWorkoutAnalysisAsWritten | parsers/workout_parser.py:536-561 | `update_workout_analysis` as written, with or without a match: every section removed, right-stripped, a blank line and the new section; never longer than the note plus the blank line and the section |
| WorkoutAnalysis.UpdateWorkoutAnalysis | parsers/workout_parser.py:536-561 | the corrected rewrite: the same shape and bound with the corrected section pattern |
| WorkoutAnalysis.UpdateShape | parsers/workout_parser.py:536-561 | for any section matcher, with or without a match, the new body is what is left after every match is removed, right-stripped, then a blank line and the new section; the kept part is no longer than the original |
| WorkoutAnalysis.NoBodyEither | parsers/workout_parser.py:539-541 | where the heading pattern as written finds no match, the corrected one finds none either |
| WorkoutAnalysis.UpdateWithoutSection | parsers/workout_parser.py:548-559 | without a match of the heading pattern the body is kept, trailing whitespace aside, and the section follows it, in both readings |
| WorkoutAnalysis.TextIsAnalysis | parsers/workout_parser.py:511-518 | a body with text and no comment marker counts as analysed |
| WorkoutAnalysis.PlaceholderNeedsAnalysis | parsers/workout_parser.py:513-518 | a body holding only a placeholder comment still needs analysis |
| WorkoutAnalysis.OneCommentOnly | parsers/workout_parser.py:514-518 | a body that is a single comment is only comments |
| WorkoutAnalysis.PlaceholderIsOneComment | parsers/workout_parser.py:514 | a comment without dashes inside is matched as one comment, to its end |
| WorkoutAnalysis.TitleOfHeadingAt | parsers/workout_parser.py:539-541 | the title the writers produce, wherever it stands, ends after its fourteen characters |
| WorkoutAnalysis.BodyEndNoNewline | parsers/workout_parser.py:539-541 | without a newline at or after the start, the body and the span run to the end |
| WorkoutAnalysis.HeadingThenLine | parsers/workout_parser.py:501-511 | with the heading on its own line and one line of text under it, both readings take that line as the body |
| WorkoutAnalysis.NeedsAnalysisOfOneLine | parsers/workout_parser.py:498-518 | a body that opens with the heading and one line needs analysis iff that line is only comments, in both readings |
| WorkoutAnalysis.NewSectionPieces | parsers/workout_parser.py:545-547 | the appended section is the heading, a blank line, the analysis and a final newline |
| WorkoutAnalysis.HashFreeHasNoBody | parsers/workout_parser.py:501-505 | text without a `#` holds no match of the heading pattern |
| WorkoutAnalysis.BodyEndAt | parsers/workout_parser.py:502 | the lazy body stops at the first place at or after its start where the lookahead holds |
| WorkoutAnalysis.AppendedSectionFound | parsers/workout_parser.py:501-505 | the appended section, after text without a `#`, is found with the analysis as its body (after the blank line as written, with the blank line when corrected) |
| WorkoutAnalysis.NoBodyBeforeSection | parsers/workout_parser.py:501-505 | before the appended section no heading match starts |
| WorkoutAnalysis.FoundBodyDecides | parsers/workout_parser.py:507-518 | the first body found decides `needs_analysis`: it is needed iff that body is only comments |
| WorkoutAnalysis.WrittenAnalysisIsFound | parsers/workout_parser.py:498-561 | writing a plain analysis into a note without a `#` gives a note that no longer needs analysis, in both readings |
| WorkoutAnalysis.BlankThenPieces | parsers/workout_parser.py:539-541 | the characters of an empty section followed by another heading (`## AI Analysis\n\n## w`) |
| WorkoutAnalysis.BlankThenStarts | parsers/workout_parser.py:539-541 | in that text the body starts at 16 as written and at 15 when corrected |
| WorkoutAnalysis.BlankThenAnalysedAsWritten | parsers/workout_parser.py:501-518 | as written, the empty section reads as analysed, because the next heading is taken as its body |
| WorkoutAnalysis.HeadingTextIsAnalysis | parsers/workout_parser.py:511-518 | a heading line counts as analysis text |
| WorkoutAnalysis.BlankThenLostAsWritten | parsers/workout_parser.py:539-559 | as written, rewriting the note swallows the following section together with the empty one |
| WorkoutAnalysis.BlankThenHeadingAhead | parsers/workout_parser.py:539-541 | corrected, the body and the span stop at once, at the next heading |
| WorkoutAnalysis.BlankThenNeedsAnalysis | parsers/workout_parser.py:498-518 | corrected, the empty section needs analysis |
| WorkoutAnalysis.BlankThenNoSecondHeading | parsers/workout_parser.py:539-543 | no further AI Analysis section starts after the empty one |
| WorkoutAnalysis.TitleNotAi | parsers/workout_parser.py:540 | the following heading does not match the AI Analysis title |
| WorkoutAnalysis.BlankThenKept | parsers/workout_parser.py:536-561 | corrected, the rewrite keeps the following section and appends the new one after it |
| WorkoutAnalysis.KeptTail | parsers/workout_parser.py:551-553 | after the empty section is cut out and the rest right-stripped, the following heading remains |
| WorkoutAnalysis.NotesTitlePlain | parsers/workout_parser.py:540 | the heading `Notes` is a plain title that is not `AI Analysis` |
| WorkoutScheme.FirstTypeIn | parsers/workout_parser.py:192-195 | the chosen type is listed and named in the text, and it is the first such; nothing when the text names none |
| WorkoutScheme.DetectType | parsers/workout_parser.py:191-208 | the type is `''` or one of the listed scheme types |
| WorkoutScheme.LowerSchemeTypes | parsers/workout_parser.py:193 | the lower-case forms of the six listed types |
| WorkoutScheme.DetectTypeCases | parsers/workout_parser.py:191-208 | the first listed type the text names wins; failing that, `ladder` gives Лесенка and `rounds for time` gives RFT; otherwise no type (the other fallbacks repeat listed names and can never fire) |
| WorkoutScheme.SchemeHeadingAt | parsers/workout_parser.py:213-215 | a `##\s*Схема` match ends at least seven characters on, inside the text |
| WorkoutScheme.SubHeadingAt | parsers/workout_parser.py:219 | a `\n##\s` match is four characters long |
| WorkoutScheme.SchemeSection | parsers/workout_parser.py:212-223 | the section is empty iff there is no scheme heading; otherwise it is the section from the first heading |
| WorkoutScheme.SectionFrom | parsers/workout_parser.py:218-223 | the section is a slice of the note from the heading; no `\n##\s` starts inside it past the heading's fourth character; it ends at the end of the note or at such a heading |
| WorkoutScheme.NumberEndExact | parsers/workout_parser.py:226 | a digit run ends where the digits end |
| WorkoutScheme.WrittenNumberEnd | parsers/workout_parser.py:226 | a number written out and not followed by a digit is read as one digit run |
| WorkoutScheme.ChainAt | parsers/workout_parser.py:226 | a `\d+(?:[-,]+\d+){2,}` match ends after its start, inside the text |
| WorkoutScheme.PatternOf | parsers/workout_parser.py:225-234 | the reps per set are the digit runs of the pattern text; without a section there is no pattern and no reps |
| WorkoutScheme.DigitRunsLadder | parsers/workout_parser.py:231-233 | the digit runs of a written ladder read back the numbers written |
| WorkoutScheme.DigitRunsSameDigits | parsers/workout_parser.py:231 | replacing separators by spaces does not change the digit runs |
| WorkoutScheme.LadderRepsOfLadder | parsers/workout_parser.py:231-233 | the reps read from a written ladder are exactly its numbers |
| WorkoutScheme.ChainTailsStep | parsers/workout_parser.py:226 | one greedy step of `(?:[-,]+\d+)*`: a run of separators and a number add one tail |
| WorkoutScheme.ChainTailsStop | parsers/workout_parser.py:226 | the greedy tails stop where no run of separators followed by a digit starts |
| WorkoutScheme.ChainTailsFrom | parsers/workout_parser.py:226 | the tails read inside a suffix do not depend on what comes before it |
| WorkoutScheme.LadderTails | parsers/workout_parser.py:226 | after a separator, the greedy tails take every number of a written ladder |
| WorkoutScheme.ChainAtLadder | parsers/workout_parser.py:226 | a written ladder of three or more numbers, followed by neither a digit nor a separator, matches as a whole |
| WorkoutScheme.PatternOfLadder | parsers/workout_parser.py:210-234 | when the first digit of the section starts a written ladder of three or more numbers, the pattern is that ladder and the reps per set are its numbers in order |
| WorkoutScheme.RoundsOf | parsers/workout_parser.py:238-283 | there is no rounds count iff neither `N раундов`-style nor `Раундов: N`-style phrase occurs |
| WorkoutScheme.RoundsTotal | parsers/workout_parser.py:248-301 | without a rounds count the total stays; a positive total is multiplied by the count unless a monotone ladder's rungs equal the count; otherwise it stays |
| WorkoutScheme.RestOfAsWritten | parsers/workout_parser.py:308-310 | the rest is 60 seconds when no rest phrase is found, and otherwise the seconds of the leftmost rest phrase |
| WorkoutScheme.RestOf | parsers/workout_parser.py:308-310 | corrected reading: the same, with the third alternative reading the whole number |
| WorkoutScheme.LeftmostRestAsWritten | parsers/workout_parser.py:308-310 | `re.search` takes the leftmost rest phrase: whatever match comes first gives the rest, as written |
| WorkoutScheme.LeftmostRest | parsers/workout_parser.py:308-310 | the same for the corrected reading |
| WorkoutScheme.RestAsWrittenDropsTens | parsers/workout_parser.py:308-310 | as written, `отдых 30 сек` gives a rest of 0 seconds, because the greedy `.*` leaves only the last digit to `(\d+)` |
| WorkoutScheme.RestReadsWholeNumber | parsers/workout_parser.py:308-310 | corrected, `отдых N сек` gives a rest of N seconds |
| WorkoutScheme.RestLineLayout | parsers/workout_parser.py:308 | the positions of the parts of `отдых D сек` |
| WorkoutScheme.RestLineNumber | parsers/workout_parser.py:308 | in `отдых D сек` the only number followed by `сек` is D |
| WorkoutScheme.WholeSecondsSkip | parsers/workout_parser.py:308 | positions where no number is followed by `сек` do not change the corrected reading |
| WorkoutScheme.ValueStart | parsers/workout_parser.py:336 | `[:\s]*` gives back characters until `([^\n]+)` can start on a character that is not a newline |
| WorkoutScheme.LabelledValueAt | parsers/workout_parser.py:335-339 | the equipment value starts on a character that is not a newline |
| WorkoutScheme.CleanEquipment | parsers/workout_parser.py:342-344 | the cleaned equipment has no whitespace at either end |
| WorkoutScheme.EquipmentOf | parsers/workout_parser.py:333-345 | there is equipment iff an equipment label occurs; the text has no whitespace at either end |
| WorkoutScheme.EmomOf | parsers/workout_parser.py:313 | EMOM notation is found iff it occurs |
| WorkoutScheme.TabataOf | parsers/workout_parser.py:322 | Tabata notation is found iff it occurs |
| WorkoutScheme.WithEmom | parsers/workout_parser.py:312-319 | EMOM notation makes the type EMOM, sets the reps per set to its reps once per whole sixty of its number with the total their sum, and changes nothing else |
| WorkoutScheme.WithTabata | parsers/workout_parser.py:321-331 | Tabata notation makes the type Табата with one rep per round, the total the rounds, and its work and rest times; nothing else changes |
| WorkoutScheme.SchemeFrom | parsers/workout_parser.py:166-347 | the type is `''` or a listed type; the rounds count and the equipment line are never changed by the notations; without Tabata notation the time per rep and the rest are the ones the text gives, the rest read as the source's pattern reads it |
| WorkoutScheme.ExtractScheme | parsers/workout_parser.py:166-347 | filling the scheme key by key in the source's order gives `SchemeOf(content)` |
| WorkoutScheme.SchemeTotals | parsers/workout_parser.py:225-301 | without EMOM or Tabata notation, the reps per set are the pattern's numbers and the total follows the rounds rule on their sum |
| WorkoutScheme.NoRoundsPhrase | parsers/workout_parser.py:300-301 | with no rounds phrase the scheme has one set and the total is the plain sum |
| WorkoutScheme.NoSchemeSection | parsers/workout_parser.py:212-227 | with no scheme heading the pattern is `''`, the reps per set `[]` and the total 0 |
| WorkoutScheme.MonotoneLadderNotMultiplied | parsers/workout_parser.py:255-266 | a monotone ladder whose rounds count equals its number of rungs keeps its plain sum |
| WorkoutScheme.UpAndDownMultiplied | parsers/workout_parser.py:262-269 | a ladder that goes up and back down is not monotone, so its rounds count multiplies it |
| WorkoutScheme.TabataScheme | parsers/workout_parser.py:312-331 | Tabata notation overrides EMOM notation and fixes the reps and timing; the rounds count stays |
| WorkoutScheme.EmomScheme | parsers/workout_parser.py:303-319 | EMOM notation gives its reps once per whole sixty of its number, and keeps the timing read before it |
| WorkoutExercises.ItemText | parsers/workout_parser.py:370-378 | an item text exists only for a line that starts with a bullet or a digit, and it is never empty |
| WorkoutExercises.ClassifyLine | parsers/workout_parser.py:383-480 | a line stops the scan only when it is an analysis heading; an accepted line is a list item whose exercise, read as the source reads it, is named by more than two characters |
| WorkoutExercises.ExercisesOf | parsers/workout_parser.py:383-480 | at most one exercise per line, each one named by more than two characters |
| WorkoutExercises.ExtractExercises | parsers/workout_parser.py:350-483 | the loop over the note's lines returns exactly the exercises the lines give, in order, up to the first analysis heading |
| WorkoutExercises.ExercisesOfStep | parsers/workout_parser.py:383-480 | one pass of the loop: an analysis heading ends the list, a skipped line adds nothing, an accepted line appends its exercise |
| WorkoutExercises.ExercisesOfConcat | parsers/workout_parser.py:383-396 | before the first analysis heading the lines contribute independently and in order |
| WorkoutExercises.SkippedLineAddsNothing | parsers/workout_parser.py:384-421 | a skipped line leaves the list unchanged wherever it stands |
| WorkoutExercises.AcceptedLineAppends | parsers/workout_parser.py:471-480 | an accepted line adds exactly its exercise at its own place; order and duplicates are kept |
| WorkoutExercises.ExercisesOfCons | parsers/workout_parser.py:383-480 | what a first line contributes ahead of the rest, case by case |
| WorkoutExercises.AnalysisHeadingStops | parsers/workout_parser.py:390-395 | nothing after the first heading naming `analysis`, `анализ` or `ai` becomes an exercise |
| WorkoutExercises.OtherHeadingSkipped | parsers/workout_parser.py:390-396 | every other heading line contributes nothing |
| WorkoutExercises.KeywordLineDropped | parsers/workout_parser.py:406-415 | an item whose lower-cased text contains one of the skip keywords contributes nothing |
| WorkoutExercises.MetadataLineDropped | parsers/workout_parser.py:417-421 | an item whose text contains `:**` contributes nothing |
| WorkoutExercises.ShortNameDropped | parsers/workout_parser.py:471 | an item whose name, as the source reads it, comes out at most two characters long contributes nothing |
| WorkoutExercises.SplitLeadingNumber | parsers/workout_parser.py:427-436 | a split exists only for text starting with a digit, and the rest is shorter than the text |
| WorkoutExercises.LeadingNumberSplits | parsers/workout_parser.py:427-436 | a written count followed by whitespace and more text splits into that count and the stripped rest |
| WorkoutExercises.LeadingNumberWins | parsers/workout_parser.py:430-439 | a positive leading count is the reps per round, whatever suffix the rest carries |
| WorkoutExercises.ParseItemAsWritten | parsers/workout_parser.py:424-450 | the reps of the item as the source reads it: a positive leading count is the reps per round; without one the reps are the first `xN` suffix's number, or none |
| WorkoutExercises.ParseItemAsWrittenParts | parsers/workout_parser.py:452-469 | the name and equipment of the as-written parse: the equipment is the first weighted bracket group of the text the reps step leaves (the suffixes removed when they gave the reps), or empty; the name is that text with the groups removed, or the whole text when there is no group |
| WorkoutExercises.ParseItem | parsers/workout_parser.py:424-469 | corrected reading: a positive leading count is the reps per round, and the equipment is the whole first weighted group, read before any suffix |
| WorkoutExercises.CloseIndexExact | parsers/workout_parser.py:455-457 | the closing-bracket scan stops exactly at the first `)` or `]` |
| WorkoutExercises.EquipmentAt | parsers/workout_parser.py:454-459 | a bracket group match at a position lies wholly inside the text |
| WorkoutExercises.GroupAt | parsers/workout_parser.py:454-459 | a bracketed stretch without closing brackets that names `кг` or `kg` is a match, and its group is that stretch |
| WorkoutExercises.EquipmentFirstGroup | parsers/workout_parser.py:454-461 | the equipment is the first weighted bracket group, stripped |
| WorkoutExercises.RemovalOfOneGroup | parsers/workout_parser.py:462-466 | a text with a single weighted group loses exactly that group and the whitespace before it |
| WorkoutExercises.EquipmentRemoved | parsers/workout_parser.py:462-467 | removing the weighted group leaves the text before and after it joined |
| WorkoutExercises.SuffixRepsFirst | parsers/workout_parser.py:439-446 | the suffix reps are the whole number after the first x-sign that is followed by a digit |
| WorkoutExercises.NoSuffixReps | parsers/workout_parser.py:440-443 | text with no x-sign before a digit has no suffix reps |
| WorkoutExercises.RemovalOfOneSuffix | parsers/workout_parser.py:447-450 | a text with a single x-suffix loses exactly that suffix and the whitespace before it |
| WorkoutExercises.SuffixRemoved | parsers/workout_parser.py:447-450 | removing the suffix leaves the text before and after it joined |
| WorkoutExercises.NameWithGroup | parsers/workout_parser.py:424-469 | `name (weight)` has no leading count, gives that weight as equipment and that name |
| WorkoutExercises.NumberWeight | parsers/workout_parser.py:456 | a written number followed by `кг` is a plain weight |
| WorkoutExercises.CountWeight | parsers/workout_parser.py:456 | `2x24кг` and the like is a plain weight |
| WorkoutExercises.WeightedGroupSuffix | parsers/workout_parser.py:439-446 | in `a (mxnкг)` the first x-suffix is the n inside the group |
| WorkoutExercises.WeightedGroupSuffixRemoved | parsers/workout_parser.py:447-450 | removing the suffixes of `a (mxnкг)` leaves `a (mкг)` |
| WorkoutExercises.WeightedGroupAsWritten | parsers/workout_parser.py:439-466 | as written, `a (mxnкг)` reads as n reps per round with equipment `mкг` |
| WorkoutExercises.WeightedGroupKeptWhole | parsers/workout_parser.py:439-466 | with the equipment taken first, `a (mxnкг)` keeps the equipment `mxnкг` and reads no reps |
| WorkoutExercises.SwingsAsWritten | parsers/workout_parser.py:367 | the example `Махи (1x16кг)` as written: 16 reps per round and equipment `1кг` |
| WorkoutExercises.SwingsKeptWhole | parsers/workout_parser.py:367 | the same example read with the equipment first: no reps and equipment `1x16кг` |
| Calories.ExerciseCalories | calculators/calorie_calculator.py:14-31 | no calories without a positive rate; never negative for non-negative reps and weights and a positive reference weight |
| Calories.ReferenceWeightCalories | calculators/calorie_calculator.py:23-31 | at the reference weight the calories are the rate times the reps, rounded half to even |
| Calories.Entry | calculators/calorie_calculator.py:60-113 | an entry counts by reps exactly when the rate and the reps are both positive; its reps are the listed reps (summed when a list); a missing name is `Unknown` |
| Calories.TimeBasedWithoutRate | calculators/calorie_calculator.py:79-96 | without a rate or reps an exercise is never counted by reps; without a duration it burns MET × weight over three seconds per rep |
| Calories.CalculateWorkoutCalories | calculators/calorie_calculator.py:34-142 | one entry per pair of the shorter list; the reps total, the rounded calorie total, the muscle-group counts and their shares of the exercises, the time from the duration or from the reps plus a minute, the rounded minutes, the sets, the weight and the timestamp |
| Calories.TallyExercises | calculators/calorie_calculator.py:60-113 | the loop's entries, reps total, unrounded calorie total and group counts over the first n pairs |
| Calories.CountGroups | calculators/calorie_calculator.py:98-101 | after one exercise the counts are the number of times each group has been listed so far |
| Calories.TimeSharesCoverDuration | calculators/calorie_calculator.py:85-90 | when every exercise is time-based at one MET rate, their calories add up to that rate over the whole duration |
| Calories.CountAtMostExercises | calculators/calorie_calculator.py:99-101 | a group listed at most once per exercise is counted at most once per exercise |
| Calories.CountGrowsByListing | calculators/calorie_calculator.py:99-101 | each exercise adds to a group's count the number of times it lists that group, so a listed group's count grows |
| Calories.NoWeight | calculators/calorie_calculator.py:218-230 | empty, body-weight and digit-free equipment weighs nothing |
| Calories.WeightFromTimes | calculators/calorie_calculator.py:222-228 | when the product pattern is found it decides the weight |
| Calories.WeightFromKg | calculators/calorie_calculator.py:222-229 | without a product the first `N кг` decides the weight |
| Calories.TimesWeight | calculators/calorie_calculator.py:222-228 | `AxB` weighs A times B |
| Calories.KgWeight | calculators/calorie_calculator.py:222-229 | `N кг` weighs N |
| Calories.GroupsDistinct | calculators/calorie_calculator.py:156-158 | the seven muscle groups are distinct |
| Calories.LoadWeight | calculators/calorie_calculator.py:178-181 | the weight an exercise moves is always positive |
| Calories.BodyWeightLoad | calculators/calorie_calculator.py:179-181 | body-weight and unweighted equipment count as 30 |
| Calories.PairVolumes | calculators/calorie_calculator.py:163-183 | one volume per pair walked, each the reps times the load weight |
| Calories.TenRepsWithoutList | calculators/calorie_calculator.py:163-168 | without an exercise list every stored exercise counts ten reps at its stored equipment's weight |
| Calories.Volumes | calculators/calorie_calculator.py:199-200 | the volumes of the known groups in their order |
| Calories.CalculateMuscleBalance | calculators/calorie_calculator.py:145-215 | exactly the seven groups get an entry with their volume and share of the total; the total counts each pair once per known group listed; the primary group is the first of strictly largest positive volume, and there is none exactly when no volume is positive |
| Calories.AccumulateVolumes | calculators/calorie_calculator.py:170-192 | after the pairs each known group holds the volume of the pairs listing it, and the total counts each pair once per known group it lists |
| Calories.AddVolume | calculators/calorie_calculator.py:186-188 | each listed known group gains the exercise's volume once per listing; unknown groups are ignored |
| Calories.Summarize | calculators/calorie_calculator.py:194-215 | every group's entry and share; the primary is the first strict maximum above zero, none exactly when no volume is positive |
| Calories.VisitGroup | calculators/calorie_calculator.py:199-209 | one group's turn keeps the entries so far and the leader so far |
| Calories.GroupsMakeTotal | calculators/calorie_calculator.py:186-192 | the seven groups' volumes add up to the total volume |
| Calories.SharesMakeHundred | calculators/calorie_calculator.py:199-204 | with a positive total the seven unrounded shares add up to 100 |
| MarkdownWriter.SectionEnd | writers/markdown_writer.py:30 | the lazy section body stops at the first `\n## ` at or after its start, or at the end of the text |
| MarkdownWriter.AnalysisAt | writers/markdown_writer.py:29-34 | a section match at a position is non-empty and lies inside the text |
| MarkdownWriter.RemoveSections | writers/markdown_writer.py:28-34 | removing the analysis sections never makes the note longer; what is cut is stated by `RemoveNextSection`, `RemoveFirstSection` and `RemoveTwoSections` |
| MarkdownWriter.CollapseNewlines | writers/markdown_writer.py:37 | after the collapse no three newlines in a row are left |
| MarkdownWriter.RemoveAnalysisSection | writers/markdown_writer.py:207-215 | the cleaned note has no three newlines in a row |
| MarkdownWriter.RemoveChangesIffHeading | writers/markdown_writer.py:207-212 | the removal changes the note exactly when the note holds `## AI Analysis\n` |
| MarkdownWriter.RemoveOneSection | writers/markdown_writer.py:29-34 | with one heading, the section from it up to the next `\n## ` (or the end) is cut out and everything around it is kept |
| MarkdownWriter.RemoveNextSection | writers/markdown_writer.py:28-34 | wherever the scan stands, the text up to the next heading is kept, that section up to the next `\n## ` (or the end) is cut, and removal goes on from the section's end, so every section is removed and the text between them kept |
| MarkdownWriter.RemoveFirstSection | writers/markdown_writer.py:28-34 | for any note, the text before the first heading is kept, its section is cut, and the rest is the removal applied from that section's end |
| MarkdownWriter.RemoveTwoSections | writers/markdown_writer.py:206-212 | a note with two analysis sections loses both, keeping the text before, between and after them |
| MarkdownWriter.RemoveNoFurtherSection | writers/markdown_writer.py:206-212 | past the last heading the removal keeps the rest of the text |
| MarkdownWriter.NewlineRunEnd | writers/markdown_writer.py:37 | the run of newlines at a position ends at the first character that is not a newline |
| MarkdownWriter.BlankRunAt | writers/markdown_writer.py:37 | a `\n{3,}` match is at least three characters long and lies inside the text |
| MarkdownWriter.RunOfThree | writers/markdown_writer.py:37 | `\n{3,}` matches exactly where three newlines start, and then takes the whole run |
| MarkdownWriter.CollapseLeavesNoTriple | writers/markdown_writer.py:215 | after the collapse no three newlines in a row are left |
| MarkdownWriter.CollapseKeepsShortRuns | writers/markdown_writer.py:215 | a note without three newlines in a row is left as it is |
| MarkdownWriter.WriteAnalysis | writers/markdown_writer.py:28-45 | the written note ends with the section after exactly one blank line; the text before it ends in no whitespace and has no three newlines in a row |
| MarkdownWriter.WrittenShape | writers/markdown_writer.py:28-45 | the written note is the cleaned note, with its trailing whitespace stripped, then one blank line, then the section; the kept part has no run of three newlines |
| MarkdownWriter.WriteWithoutSection | writers/markdown_writer.py:28-45 | a note without an analysis section and without long blank runs only loses its trailing whitespace before the section is added |
| MarkdownWriter.UnknownMuscleKept | writers/markdown_writer.py:83-96 | a group outside the mapping is shown by its own key |
| MarkdownWriter.InsertShare | writers/markdown_writer.py:95 | inserting an entry keeps every entry and adds that one |
| MarkdownWriter.InsertKeepsDescending | writers/markdown_writer.py:95 | inserting into a list in descending percentage order keeps it in that order |
| MarkdownWriter.SortedByPercentage | writers/markdown_writer.py:94-95 | the groups are ordered by descending percentage and none is lost or added |
| MarkdownWriter.MuscleLinesAppend | writers/markdown_writer.py:95-97 | one line per group, in the sorted order |
| MarkdownWriter.WriteMuscleLines | writers/markdown_writer.py:95-97 | the loop appends exactly the lines `MuscleLines` gives for the sorted shares, one per group in order |
| MarkdownWriter.SectionHeadStartsWithHeading | writers/markdown_writer.py:70-80 | the formatted section starts with the heading the removal looks for |
| MarkdownWriter.FormatAnalysisSection | writers/markdown_writer.py:51-109 | the overview, then one line per group in descending percentage order, or the no-data line when there are none, then the stripped response and the timestamp |
| MarkdownWriter.CreateEmptyAnalysisSection | writers/markdown_writer.py:185-191 | the empty section starts with the analysis heading |
| MarkdownWriter.CalorieRowsAppend | writers/markdown_writer.py:170-175 | one table row per breakdown entry, in order |
| MarkdownWriter.CalorieRowsOne | writers/markdown_writer.py:170-175 | a single entry gives exactly its own row |
| MarkdownWriter.WriteCalorieSummary | writers/markdown_writer.py:147-182 | the note is kept as it is and the table follows it: header, one row per entry in order, then the totals |
| MarkdownWriter.UpdatedExerciseFields | writers/markdown_writer.py:127-139 | only those of the four data keys the input holds are overwritten; `last_updated` is always set; every other key keeps its value |
| MarkdownWriter.CopyFourKeys | writers/markdown_writer.py:127-137 | the four conditional copies, in the order the source makes them, are the copy of the four keys |
| MarkdownWriter.UpdateExerciseData | writers/markdown_writer.py:112-144 | the note's metadata becomes the updated metadata and its body is written back unchanged |
| Prompts.EstimatedTime | ai/prompts.py:37-42 | at least ten minutes and at least reps × time per rep plus the rests between sets, in minutes; it is one of the two |
| Prompts.MinutesAtLeastTen | ai/prompts.py:38-42 | the whole minutes the prompt states (`int` of the estimate) are never fewer than ten |
| Prompts.EmptySchemeTakesTen | ai/prompts.py:33-42 | a scheme with no reps, no time per rep and no rest gets the ten-minute floor |
| Prompts.ExerciseLines | ai/prompts.py:44-52 | one line per exercise, in input order, the i-th numbered i + 1 |
| Prompts.ExercisesText | ai/prompts.py:54 | no exercises give the fallback text; a single exercise gives its line alone |
| Prompts.LineNumbered | ai/prompts.py:47 | each line starts with its number and a dot |
| Prompts.BareExerciseLine | ai/prompts.py:47-51 | without equipment or reps the line is just the number and the name (`Unknown` when missing) |
| Prompts.ExerciseLineParts | ai/prompts.py:47-51 | the equipment part is present exactly when the equipment is truthy, and the reps part exactly when the reps are |
| Prompts.LessTransitive | ai/prompts.py:58 | the string order the sort uses is transitive |
| Prompts.LessTotal | ai/prompts.py:58 | the string order is total |
| Prompts.LessIrreflexive | ai/prompts.py:58 | the string order is strict |
| Prompts.InsertByKey | ai/prompts.py:58 | inserting an item keeps every item and adds that one |
| Prompts.InsertKeepsAscending | ai/prompts.py:58 | inserting into a list in ascending key order keeps it in that order |
| Prompts.SortedByKey | ai/prompts.py:58 | the items are put in ascending key order and none is lost or added |
| Prompts.BalanceLines | ai/prompts.py:58 | one `- key: value%` line per item, in order |
| Prompts.BalanceText | ai/prompts.py:57-61 | no balance gives the fallback text |
| Prompts.BalanceTextLines | ai/prompts.py:57-59 | a non-empty balance is one line per item, in ascending key order, joined by newlines |
| Prompts.OpeningFenceAt | ai/prompts.py:105 | an opening-fence match is at least ten characters long and lies inside the text |
| Prompts.ClosingFenceAt | ai/prompts.py:106 | a closing-fence match is at least three characters long and lies inside the text |
| Prompts.CleanMarkdownResponse | ai/prompts.py:92-108 | an empty reply gives the empty text; the result never begins or ends with whitespace |
| Prompts.NoFenceOnlyStripped | ai/prompts.py:105-108 | a reply without backticks is only stripped |
| Prompts.FencedReply | ai/prompts.py:105-108 | a reply wrapped in a markdown fence gives back exactly the wrapped text |
| Prompts.OpenedFence | ai/prompts.py:105 | the opening fence and the newline after it are the only text the first substitution removes |
| Prompts.ClosedFence | ai/prompts.py:106 | the newline and the closing fence are the only text the second substitution removes |
| Numeric.RoundHalfEven | calculators/calorie_calculator.py:31 | `round` gives the nearest integer, ties going to the even one |
| Numeric.Round1 | calculators/calorie_calculator.py:133 | `round(x, 1)` stays within half a tenth of x |
| Numeric.Truncate | ai/prompts.py:76 | `int` of a number truncates toward zero |
| Text.Strip | parsers/workout_parser.py:384 | the stripped text neither starts nor ends with whitespace and is no longer than the text |
| Text.StripStripped | parsers/workout_parser.py:384 | stripping twice is stripping once |
| Text.Split | parsers/workout_parser.py:382 | splitting at newlines gives at least one piece and no piece holds a newline |
| Text.JoinSplit | parsers/workout_parser.py:382 | joining the pieces with the separator gives back the text |
| Text.LowerIdempotent | parsers/workout_parser.py:391 | lower-casing is idempotent and gives lower-case text |
| Text.NatToStringRoundTrip | parsers/workout_parser.py:431-433 | reading back a written count gives the count |

## Left out

- Reading and writing files, the existence checks that raise `FileNotFoundError`, and the python-frontmatter library. They are I/O. A note is a `Documents.Post` (metadata and body), the cache directory is a map from path to file, and the exercises folder is a listing.
- The HTTP clients in `ai/perplexity_client.py`, `ai/groq_client.py` and `ai/gemini_client.py`. They make network calls. The search API's answer, or its failure, is a parameter of `ExerciseCache.GetExerciseData`.
- `main.py` and the package `__init__.py` files. They are command-line glue and re-exports.
- `load_config`, `ensure_dir_exists` and `extract_json_from_text`. They rely on the YAML and JSON libraries and on the file system.
- `clear_cache` and `get_cache_stats`. They depend on file times and the clock.
- The clock. Every `datetime.now` timestamp is a parameter.
- The fixed template text of `build_workout_prompt`. It is constant prose; only the parts it computes are modelled: the estimated time, the exercise list and the balance list.
- Binary floating point. Calories, durations and percentages are exact reals, and `round` is exact round-half-to-even on them.
- Float-to-text formatting: `str()`, `{:.1f}` and f-strings of numbers. These are the parameters `show`, `fmt1`, `showPercent` and `showReal`. Python's `float()` of a string is the parameter `floatOf`.
- The difference between int and float values: 5 and 5.0 are one `Num` value, so how `str()` would print each is left to `show`.
- Booleans in frontmatter. They are not represented, yet Python would treat `True` as the number 1.
- Unicode character classes. `\s` and `\d` are the ASCII classes, and `lower()` maps only ASCII and Cyrillic letters. Python's `re` and `str.lower` cover all of Unicode.
- Dictionary order, where the core does not read it. The two muscle-balance dictionaries that are listed are sequences of entries in insertion order: the argument of `format_analysis_section` (`MarkdownWriter.FormatAnalysisSection`) and that of `build_workout_prompt` (`Prompts.BalanceText`). The group counts and the `muscle_distribution` of `calculate_workout_calories`, and the `balance` of `calculate_muscle_balance`, are maps, so their insertion order is dropped. The only loop over one of them, at calculators/calorie_calculator.py:125, fills another dictionary key by key, and nothing reads the order of the result.
- The mutation of each exercise dictionary in `parse_workout_file`. The exercises are returned as a new list of records; the values are the same.
- `calculate_muscle_balance`'s `scheme` argument. The function never reads it.
- Calories.ExerciseCalories: requires a non-zero `baseWeight` when the rate is positive. With a zero reference weight, `user_weight / base_weight` raises `ZeroDivisionError` (calculators/calorie_calculator.py:28), and exceptions are not modelled.
- Calories.RawCalories: carries the same requirement for an exercise counted by reps, for the same reason.
- Calories: a `met_base` that is present but `None` cannot be represented, because a missing and a `None` value are both `None` in `ExerciseData`; the model then uses 8.0, whereas `data.get('met_base', 8.0)` returns `None` and the MET product raises `TypeError`.
- ExerciseCache.CacheHit: a cached `equipment` that is truthy but not a string, such as a list or a number in the JSON file, is treated as not fitting, and the lookup goes on to the API. The source calls `.lower()` on it (cache/exercise_cache.py:204-205) and raises `AttributeError`; no `try` surrounds that call, so `get_exercise_data` fails, and exceptions are not modelled.
- ExerciseParser.ParseExerciseFile: the `raw_post` key (parsers/exercise_parser.py:44), which holds the loaded `frontmatter.Post` object, is not part of the result. No code in the model reads it, and a note is already the `Documents.Post` value it was parsed from.
- ExerciseParser.NeedsEnrichment: a non-zero number as `muscle_groups` counts as missing, so the exercise needs enrichment. The source calls `len()` on it and raises `TypeError` (parsers/exercise_parser.py:107).
- WorkoutParser.ParseWorkoutFile: an unquoted YAML date such as `date: 2024-01-15` loads as a `datetime.date` object in the source. Frontmatter values have no date type here, so such a date is held as its text.
- Calories: a `cal_per_rep` that is present but `None` cannot be represented. The source then fails with a `TypeError` on `None > 0`.
- WorkoutParser.DurationOf: a list-valued duration gives nothing, whereas the source parses its `str()` form with the text rules.
- MarkdownWriter.SortedByPercentage: proves descending order and that no entry is lost. It does not prove that equal percentages keep their input order, which Python's stable sort guarantees. `SortByPercentage` is a stable insertion sort, but the stability is not stated.
- MarkdownWriter.CalorieRow: reads the `met` key as the source does. The breakdown `calculate_workout_calories` produces carries `met_base`, so that column would show 0.0. `write_calorie_summary` has no caller, so no corrected version is modelled.
- MarkdownWriter.UpdateExerciseData: the body is a string, so the `post.content or ''` fallback for a missing body is not represented.
- MarkdownWriter.CreateEmptyAnalysisSection: states only that the text starts with the analysis heading. The rest is the fixed placeholder line.
- Calories.SharesMakeHundred: proves that the unrounded shares add up to 100. The shares rounded to a tenth add up to 100 only approximately.
- Prompts.ExercisesText: states the empty and one-line cases. For longer lists the text is, by its definition, the lines joined with newlines.
- Prompts.CleanMarkdownResponse: besides the empty-input and no-edge-whitespace facts, it is characterised only for replies without backticks and for a reply wrapped in a single markdown fence (`NoFenceOnlyStripped`, `FencedReply`).
- WorkoutExercises.ItemText, WorkoutExercises.SplitLeadingNumber, WorkoutExercises.EquipmentAt, MarkdownWriter.AnalysisAt, Prompts.OpeningFenceAt and Prompts.ClosingFenceAt: their own contracts state only where a match lies. What each pattern matches is stated by the lemmas beside them.

## Findings

| source | as written | input that shows it | evidently intended | confidence | as-written member | corrected member |
|---|---|---|---|---|---|---|
| parsers/workout_parser.py:439-466 | The `xN` reps suffix is searched for before the equipment group is taken out, so the `x` inside a weight such as `(1x16кг)` counts as a reps suffix. The suffix is then cut out of the group. | `Махи (1x16кг)` gives 16 reps per round and equipment `1кг` | equipment `1x16кг` and no reps per round, as in the example at line 367 | not executed | WorkoutExercises.WeightedGroupAsWritten, WorkoutExercises.SwingsAsWritten | WorkoutExercises.WeightedGroupKeptWhole, WorkoutExercises.SwingsKeptWhole |
| parsers/workout_parser.py:501-543 | The greedy `\s*` in `Analysis\s*\n` runs over a blank line after the heading. The body then starts at the next section's heading, and the lookahead for that heading cannot match there. | `## AI Analysis\n\n## w`: needs_analysis gives false, and update_workout_analysis drops the `## w` section | the section ends at the next heading: it is empty, so it needs analysis, and the `## w` section is kept | not executed | WorkoutAnalysis.BlankThenAnalysedAsWritten, WorkoutAnalysis.BlankThenLostAsWritten | WorkoutAnalysis.BlankThenNeedsAnalysis, WorkoutAnalysis.BlankThenKept |
| parsers/workout_parser.py:308-310 | In the third rest alternative, `отдых.*(\d+)\s*сек`, the greedy `.*` leaves only the last digit to `(\d+)`. | `отдых 30 сек` gives a rest of 0 seconds | a rest of 30 seconds | not executed | WorkoutScheme.RestAsWrittenDropsTens | WorkoutScheme.RestReadsWholeNumber |
