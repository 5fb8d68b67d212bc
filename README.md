# resume-analyzer, modelled in Dafny

resume-analyzer compares a candidate's resume with a job description (JD). It cleans the extracted
text, finds skills through a skill taxonomy, named-entity recognition and a token-classification
model, and reads the experience and education requirements of the JD. It then matches resume skills
against JD skills exactly, fuzzily and semantically. The matches are turned into skill, experience,
qualification and weighted final scores, and a rule-based report is assembled with a rating,
recommendations, strengths and a one-line summary. Two fetchers supply skill taxonomies (ESCO and
O*NET). Three self-contained Streamlit apps each carry their own small analyser with substring
skill search, keyword comparison and ATS (applicant tracking system) scores.

This project models the deterministic core of all of this. There is one Dafny module per source
file, plus three shared modules:

- `TextUtil`: character classes (ASCII and Latin-1 letters and digits, ASCII and Latin-1 whitespace), lowercasing of ASCII and Latin-1 capitals, stripping, splitting into words, joining,
  first-occurrence deduplication, Python slicing, association lists standing in for dictionaries,
  filters and percentages.
- `Sorting`: a stable insertion sort that stands in for `sorted(..., reverse=True)`.
- `Taxonomy`: the skill taxonomy and the case-insensitive, word-boundary skill search used by both
  extractors.

Conventions:

- Python dictionaries are association lists in insertion order.
- Python sets that are later listed are duplicate-free sequences in first-insertion order.
- Scores are exact reals.
- Where the source has a defect listed under "## Findings", the behaviour as written and the
  corrected one are both modelled, and each row of the table says which one its member states.
  `TextCleaner.Clean` and `SummaryGenerator.Recommendations`, which the rest of the model calls, are
  the code as written.
- Code that changes state step by step is written as methods with loops and invariants, and each
  method is proved against a specification function whose properties are proved as lemmas. Examples
  are the greedy fuzzy and semantic assignment loops, the section splitter, the sentence chunker and
  the ATS point sums.
- The analyser of the detailed-comparison app (`ResumeAnalyzer`) and the match scorer (`Scorer`,
  whose weights `set_weights` replaces) are classes, because the source updates their fields.
- The models and libraries the system calls are parameters of the model: sentence embeddings,
  spaCy and Hugging Face entity recognition, `fuzz.ratio` and KMeans. Nothing is assumed about them
  beyond their types and, for `fuzz.ratio`, the range 0..100.

## Model

| member | source | states |
|---|---|---|
| DetailedComparison.HeadLinesSpec | app_detailed_comparison.py:144-148 | the candidate name lines are the first five lines of the stripped text (fewer when the text is shorter), each stripped |
| DetailedComparison.PersonNameFirst | app_detailed_comparison.py:147-156 | the name is the first of those lines that has 2 to 4 words, capitalised words of more than one letter without digits, and no header word |
| DetailedComparison.PersonNameFallback | app_detailed_comparison.py:158-165 | the fallback (first regex match, else "Unknown Candidate") is used exactly when none of the first five lines passes the test |
| DetailedComparison.ResumeAnalyzer.ExtractPersonName | app_detailed_comparison.py:142-165 | the loop over the first five lines returns the name the specification picks |
| DetailedComparison.Title | app_detailed_comparison.py:198 | `str.title()` keeps the length of the skill name |
| DetailedComparison.TitleSpec | app_detailed_comparison.py:198 | `str.title()` leaves non-letters alone, upper-cases a letter that starts a word and lower-cases a letter that follows a letter |
| DetailedComparison.CollectSkills | app_detailed_comparison.py:196-218 | the four adding loops build the duplicate-free list of titled mentioned skills, the experience tag, titled education and certification words |
| DetailedComparison.ResumeAnalyzer.ExtractSkills | app_detailed_comparison.py:167-220 | `extract_skills` returns the skill set of the text, listed once each |
| DetailedComparison.SkillsOfSpec | app_detailed_comparison.py:172-220 | the skills are listed without repeats, and a string is a skill exactly when one of the adding steps produces it |
| DetailedComparison.MentionedSkillFound | app_detailed_comparison.py:196-198 | every listed skill whose lower-case name occurs in the lower-cased text is reported in title case |
| DetailedComparison.ExperienceTagFound | app_detailed_comparison.py:201-204 | when the experience pattern matches, the tag "N+ Years Experience" for its first match is among the skills |
| DetailedComparison.JavaInsideJavascript | app_detailed_comparison.py:175-198 | substring search means that a text mentioning "javascript" also yields the skill "Java" |
| DetailedComparison.LowerWordsFrom | app_detailed_comparison.py:231 | every token of `\b[a-z]{3,}\b` has at least three characters, all ASCII lower-case letters |
| DetailedComparison.KeywordTokensSpec | app_detailed_comparison.py:231-232 | every keyword token is a word of three or more lower-case letters that is not a common word |
| DetailedComparison.FrequencyKeys | app_detailed_comparison.py:235-237 | the frequency dict has one entry per distinct word, and its keys are exactly the words counted |
| DetailedComparison.FrequencyCounts | app_detailed_comparison.py:235-237 | the frequency of each word is the number of its occurrences |
| DetailedComparison.FrequencyEntries | app_detailed_comparison.py:235-237 | every entry of the dict pairs a counted word with its number of occurrences |
| DetailedComparison.CountFrequencies | app_detailed_comparison.py:235-237 | the counting loop builds the frequency dict |
| DetailedComparison.SortedCovers | app_detailed_comparison.py:240 | sorting by count keeps an entry for every keyword |
| DetailedComparison.SortedEntry | app_detailed_comparison.py:240 | every sorted entry is a keyword with its count |
| DetailedComparison.SortedDistinct | app_detailed_comparison.py:240 | no keyword has two sorted entries |
| DetailedComparison.SortedOrder | app_detailed_comparison.py:240 | the sorted entries have non-increasing counts |
| DetailedComparison.KeywordsSpec | app_detailed_comparison.py:222-241 | at most 30 keywords, no repeats, each a keyword token of the text, in non-increasing order of frequency |
| DetailedComparison.KeywordsLeftOut | app_detailed_comparison.py:240-241 | a keyword token left out of the result means the list is full at 30 and every listed keyword is at least as frequent |
| DetailedComparison.ResumeAnalyzer.ExtractKeywords | app_detailed_comparison.py:222-241 | `extract_keywords` returns the top-30 keywords of the specification |
| DetailedComparison.FirstOccurrence | app_detailed_comparison.py:259 | the search finds the leftmost occurrence of the label at or after the start, or reports there is none |
| DetailedComparison.RequirementCapture | app_detailed_comparison.py:251-259 | a requirement pattern (label, optional colon, white space, then the shortest text up to a blank line or the end, with DOTALL) captures a non-empty text |
| DetailedComparison.RequirementCaptureNone | app_detailed_comparison.py:251-260 | a pattern finds nothing exactly when the label never occurs with at least one character after it |
| DetailedComparison.RequirementCaptureShape | app_detailed_comparison.py:251-259 | the capture is a slice of the text that ends at a blank line or at the end of the text and holds no blank line after its first character |
| DetailedComparison.StrippedLineShape | app_detailed_comparison.py:261 | a stripped non-empty line is non-empty, has no surrounding white space and no newline |
| DetailedComparison.RequirementLinesSpec | app_detailed_comparison.py:261 | every requirement taken from one capture is a non-empty stripped line |
| DetailedComparison.RequirementsFromSpec | app_detailed_comparison.py:257-261 | every requirement collected over the labels is a non-empty stripped line |
| DetailedComparison.CollectRequirements | app_detailed_comparison.py:257-261 | the loop over the four patterns extends the list with the lines of each first capture |
| DetailedComparison.ExtractRequirements | app_detailed_comparison.py:249-263 | the stored requirements are the first ten collected lines, or none |
| DetailedComparison.RequirementsSpec | app_detailed_comparison.py:263 | at most ten requirements, each a non-empty stripped line |
| DetailedComparison.ResumeAnalyzer.constructor | app_detailed_comparison.py:137-140 | a new analyser stores no skills, keywords or requirements |
| DetailedComparison.ResumeAnalyzer.Store | app_detailed_comparison.py:245-263 | the three fields are replaced by the new analysis |
| DetailedComparison.ResumeAnalyzer.AnalyzeJd | app_detailed_comparison.py:243-269 | the description's skills, keywords and requirements are those of the specification functions |
| DetailedComparison.ResumeAnalyzer.AnalyzeJobDescription | app_detailed_comparison.py:243-269 | the analyser now stores the description's skills, keywords and first ten requirements, and returns the same three lists |
| DetailedComparison.FindRelated | app_detailed_comparison.py:287-292 | the inner loop finds a related resume skill exactly when one of them contains, or is contained in, the description skill (case-insensitively) |
| DetailedComparison.ClassifySkills | app_detailed_comparison.py:282-300 | the skill loop files each description skill as matched, partial or missing, in description order |
| DetailedComparison.SkillPartition | app_detailed_comparison.py:286-300 | the matched, partial and missing lists together hold as many skills as the description |
| DetailedComparison.SkillKinds | app_detailed_comparison.py:286-300 | a skill is matched when related to a resume skill, partial when only a word is shared, missing otherwise |
| DetailedComparison.CollectExtraSkills | app_detailed_comparison.py:303-310 | the extra skills are the resume skills related to no description skill, in resume order |
| DetailedComparison.ExtraSkillsSpec | app_detailed_comparison.py:305-310 | a resume skill is extra exactly when no description skill is related to it |
| DetailedComparison.MatchKeywords | app_detailed_comparison.py:313-316 | the matched keywords are those of the first twenty description keywords that the resume also has |
| DetailedComparison.KeywordSplit | app_detailed_comparison.py:313-316 | matched and missing keywords split the first twenty description keywords by presence in the resume, keep their order, and together number as many |
| DetailedComparison.ExtraBonus | app_detailed_comparison.py:323 | the bonus is at most 10, and exactly 10 from five extra skills on |
| DetailedComparison.OverallScoreSpec | app_detailed_comparison.py:324-325 | with shares in [0, 100] and a bonus of at most 10 the capped score lies in [0, 100]; full shares give 100; nothing gives 0 |
| DetailedComparison.AtsScoreSpec | app_detailed_comparison.py:354-374 | the ATS score lies in [50, 100], is 100 exactly when every check passes and 50 exactly when all fail |
| DetailedComparison.ResumeAnalyzer.CalculateAtsScore | app_detailed_comparison.py:354-374 | the deductions and the floor compute the ATS score |
| DetailedComparison.CompareExtracted | app_detailed_comparison.py:282-352 | the loops and score formulas give the comparison of the specification over the extracted data |
| DetailedComparison.ComparisonScores | app_detailed_comparison.py:282-351 | the skill lists share out the description's skills, the keyword lists the first twenty keywords, every score lies in [0, 100], no description skills scores 0, full matches score 100 |
| DetailedComparison.ComparisonOf | app_detailed_comparison.py:333-341 | the comparison's ATS score lies in [50, 100] |
| DetailedComparison.ResumeAnalyzer.CompareResumeToJd | app_detailed_comparison.py:271-352 | `compare_resume_to_jd` reports the comparison of the resume with the stored description |
| MultiResume.RunEnd | app_multi_resume.py:95 | the greedy run of `[a-zA-Z0-9+#./-]` characters ends at the first character outside the class |
| MultiResume.BackOff | app_multi_resume.py:95 | the token regex backs off to the last word boundary inside the run, or finds none |
| MultiResume.TermAt | app_multi_resume.py:95 | a token found at a position is a term: an ASCII letter followed by term characters |
| MultiResume.TermsAreTerms | app_multi_resume.py:95 | every token `\b[a-zA-Z][a-zA-Z0-9+#./-]*\b` finds is a term |
| MultiResume.Bigrams | app_multi_resume.py:98 | there is one bigram per adjacent pair of words |
| MultiResume.Trigrams | app_multi_resume.py:99 | there is one trigram per run of three adjacent words |
| MultiResume.DynamicSkillsSpec | app_multi_resume.py:92-107 | a term is a skill exactly when it is a technical keyword and a word, bigram or trigram of the lowercased text; the skills have no repeats |
| MultiResume.ExtractDynamicSkills | app_multi_resume.py:92-113 | `extract_dynamic_skills` returns the dynamic skills and the largest number of years found, 0 when none |
| MultiResume.AltFrom | app_multi_resume.py:137 | the first alternative of a header pattern that matches at a position is found, or none matches there |
| MultiResume.AltAt | app_multi_resume.py:137 | a header pattern matches at a position exactly when one of its alternatives occurs there |
| MultiResume.HeaderStarts | app_multi_resume.py:137-139 | every match start of a header pattern lies in the text and has a matching alternative |
| MultiResume.SectionsOf | app_multi_resume.py:117-143 | the sections dict has one entry per section name |
| MultiResume.BodyStep | app_multi_resume.py:138-141 | each match appends the 500-character window after its start and a space |
| MultiResume.CollectSection | app_multi_resume.py:136-141 | the loop over one pattern's matches builds that section's text |
| MultiResume.ExtractSections | app_multi_resume.py:115-143 | `extract_sections` returns the five section texts |
| MultiResume.NoHeaderStarts | app_multi_resume.py:137 | a pattern has no match exactly when none of its alternatives occurs in the lowercased text |
| MultiResume.PieceStart | app_multi_resume.py:141 | a window starts with the character at the match |
| MultiResume.BodyNotBlank | app_multi_resume.py:141 | a section whose last window starts on a non-space character is not blank |
| MultiResume.SectionBlank | app_multi_resume.py:137-141 | a section is blank exactly when no alternative of its header pattern occurs in the lowercased text |
| MultiResume.CalculateKeywordMatch | app_multi_resume.py:145-176 | the score lies in [0, 100], at most 20 matched and 20 missing words; no job description gives (50, [], []); no job word left after filtering gives 50 |
| MultiResume.KeywordPartition | app_multi_resume.py:160-169 | matched words are job words also in the resume, missing words are job words not in it, and the two together are all the job words |
| MultiResume.KeywordScore | app_multi_resume.py:168-176 | the lists are the first 20 matched and missing words; the score is 100 exactly when nothing is missing and 0 exactly when nothing matches |
| MultiResume.LengthPoints | app_multi_resume.py:183-189 | the length check gives 10, 20 or 30 points |
| MultiResume.AddPoints | app_multi_resume.py:180-215 | the additions in source order give the capped ATS score |
| MultiResume.CalculateAtsScore | app_multi_resume.py:178-215 | `calculate_ats_score` returns the capped sum of its checks' points |
| MultiResume.AtsTotalSpec | app_multi_resume.py:180-215 | the sum lies in [10, 100], so the cap never bites; it is 100 exactly when every check earns its full points |
| MultiResume.AtsScoreSpec | app_multi_resume.py:178-215 | the ATS score of a text lies in [10, 100] and is 100 exactly when length, sections, contacts, formatting and technical density are all at their best |
| MultiResume.OverallBound | app_multi_resume.py:231 | with both scores in [0, 100] the overall score lies in [0, 84] |
| MultiResume.RoundHalfEven | app_multi_resume.py:256 | the printed percentage is the nearest integer, ties going to the even one |
| MultiResume.ApplyRule | app_multi_resume.py:238-259 | one banded rule adds the strength when it passes, else the weakness and the advice when it fails |
| MultiResume.Advise | app_multi_resume.py:233-266 | the rules of `analyze_resume`, in source order, produce the strengths, weaknesses and recommendations of the specification |
| MultiResume.EducationRule | app_multi_resume.py:264-266 | the education advice and weakness are given exactly when the education section is blank |
| MultiResume.SkillRule | app_multi_resume.py:238-242 | the skills advice and weakness are given exactly when fewer than five skills are found |
| MultiResume.StrongProfileRule | app_multi_resume.py:238-239 | the strong-profile strength is given exactly when eight or more skills are found |
| MultiResume.WeaknessAdvised | app_multi_resume.py:240-266 | every weakness comes with its recommendation |
| MultiResume.OneExperienceStrength | app_multi_resume.py:244-247 | a resume never gets both experience strengths |
| MultiResume.AnalyzeResume | app_multi_resume.py:217-283 | nothing when extraction failed; otherwise the report holds the sections, skills, years, keyword match, ATS and overall scores (in [0, 84]) and the rule texts |
| MultiResume.EducationHeadersWellFormed | app_multi_resume.py:129 | every alternative of the education pattern is a non-empty lower-case word |
| MultiResume.EducationAdvice | app_multi_resume.py:129-141 | the education advice is given exactly when no education header word occurs in the lowercased text |
| AppStandalone.ExtractSkills | app_standalone.py:86-95 | the loop keeps, in list order, the common skills whose lowercase form occurs in the lowercased text |
| AppStandalone.ExtractedSkillsSpec | app_standalone.py:91-93 | a skill is found exactly when it is a common skill named in the text, and the found skills keep the list's order |
| AppStandalone.CalculateAtsScore | app_standalone.py:97-111 | the additions to the base score of 70 compute the ATS score |
| AppStandalone.AtsScoreSpec | app_standalone.py:97-111 | the ATS score lies in [70, 100], is 100 exactly when all four checks pass and 70 exactly when none does |
| AppStandalone.MatchScore | app_standalone.py:113-132 | the match score lies in [0, 100]; an empty job description gives 75 |
| AppStandalone.MatchScoreSpec | app_standalone.py:118-132 | with job words left after filtering, the score is 100 exactly when the resume has all of them and 0 exactly when it shares none |
| AppStandalone.ChecksPartition | app_standalone.py:151-167 | each of the three checks lands in exactly one of the passed and failed lists |
| AppStandalone.Assess | app_standalone.py:151-167 | the three checks, in source order, yield the passed and failed lists |
| AppStandalone.KeywordsSpec | app_standalone.py:170-176 | without job keywords every skill counts as matched and nothing is missing; otherwise matched are the skills that are job keywords, missing the job keywords that are not skills |
| AppStandalone.FirstOf | app_standalone.py:193-203 | the first match is reported, or nothing when the pattern finds none |
| AppStandalone.Analyze | app_standalone.py:134-191 | nothing for an empty text; otherwise the skills, both scores, the rule texts, the keyword lists and the first e-mail and phone |
| Embedder.CleanTexts | src/processing/embedder.py:53 | the cleaned list is no longer than the input |
| Embedder.CleanTextsSpec | src/processing/embedder.py:53-57 | every cleaned text is non-empty and stripped, and nothing is left exactly when every input is blank |
| Embedder.CleanTextsTrimmed | src/processing/embedder.py:53 | a cleaned text is non-empty with no white space at either end |
| Embedder.CleanTextsEmpty | src/processing/embedder.py:53-57 | the cleaned list is empty exactly when every input text is blank |
| Embedder.CalculateSimilarity | src/processing/embedder.py:72-92 | an empty text has similarity 0 |
| Embedder.CalculateSimilarityGuard | src/processing/embedder.py:83-101 | a blank text gives 0; otherwise the similarity is the cosine of the two stripped texts |
| Embedder.BestResume | src/processing/embedder.py:171-182 | the best index found so far is -1 or one of the resume indices looked at |
| Embedder.BestResumeSpec | src/processing/embedder.py:171-182 | the inner loop picks the unused resume skill with the highest similarity at or above the threshold and above 0, the first one on ties, or none with score 0 |
| Embedder.FindBestResume | src/processing/embedder.py:171-182 | the inner loop computes the best resume index and score |
| Embedder.PickedAgree | src/processing/embedder.py:195-196 | two index sets that agree on the list pick the same skills |
| Embedder.PickedCount | src/processing/embedder.py:195-196 | the picked and unpicked skills together are the whole list, and as many are picked as indices are used |
| Embedder.AssignStepInv | src/processing/embedder.py:170-192 | one round of the outer loop keeps the matching bookkeeping consistent |
| Embedder.AssignInvariant | src/processing/embedder.py:170-192 | after any number of rounds the matched skills, pairs and index sets are consistent |
| Embedder.SemanticMatchSpec | src/processing/embedder.py:164-203 | the matching is one-to-one: matched and unmatched skills share out both cleaned lists, and every pair is for its matched skill with similarity at or above the threshold and above 0 |
| Embedder.AssignLoop | src/processing/embedder.py:164-192 | the outer loop computes the matching state |
| Embedder.SemanticSkillMatch | src/processing/embedder.py:107-203 | `semantic_skill_match`, including both empty-input guards, returns the result of the specification |
| Embedder.Scored | src/processing/embedder.py:254-259 | every cleaned corpus text is listed with its own similarity, in corpus order |
| Embedder.SimilarTextsSpec | src/processing/embedder.py:216-264 | empty inputs give no result; at most `top_k` results, each a cleaned corpus text with its score, in non-increasing score order |
| Embedder.FindSimilarTexts | src/processing/embedder.py:216-264 | `find_similar_texts` collects, sorts and cuts the scores as the specification says |
| Embedder.ScoreAll | src/processing/embedder.py:254-259 | the scoring loop yields, in corpus order, each cleaned corpus text paired with its own similarity |
| Embedder.BatchSimilarity | src/processing/embedder.py:270-306 | the matrix is empty exactly when a cleaned list is empty; otherwise it has one row per text of the first list and one column per text of the second, each entry their similarity |
| Embedder.GroupByLabelContents | src/processing/embedder.py:350-354 | every text lands in exactly one cluster: the clusters hold the texts, counted with multiplicity |
| Embedder.ClusterTexts | src/processing/embedder.py:312-359 | fewer cleaned texts than clusters gives nothing; otherwise there is one label per cleaned text |
| Embedder.ClusterTextsContents | src/processing/embedder.py:327-359 | the clusters hold exactly the cleaned texts |
| FetchedSkills.NamesOf | src/utils/esco_fetcher.py:139 | one name per skill record |
| FetchedSkills.TagAll | src/utils/esco_fetcher.py:129 | one tagged record per skill record of a category |
| FetchedSkills.AllTaggedMember | src/utils/esco_fetcher.py:125-129 | a tagged record comes from exactly the category it names |
| FetchedSkills.SkillNamesOfRecords | src/utils/esco_fetcher.py:133-141 | the names are those of the records, one per record, in category order (the O*NET fetcher's copy at src/utils/onet_fetcher.py:173-181 is the same code) |
| FetchedSkills.GetAllSkillNames | src/utils/onet_fetcher.py:173-181 | the loop over the categories collects the skill names of the specification |
| EscoFetcher.PredefinedEscoCategories | src/utils/esco_fetcher.py:71-106 | the predefined taxonomy has the four categories technical, transversal, language and digital, in that order, each once |
| EscoFetcher.HitsAppend | src/utils/esco_fetcher.py:125-129 | searching two lists of records one after the other gives the hits of each, in order |
| EscoFetcher.HitsMember | src/utils/esco_fetcher.py:127-129 | a record is a hit exactly when the query occurs in its lowercased name or description |
| EscoFetcher.HitsOrder | src/utils/esco_fetcher.py:125-129 | the hits keep the order of the records |
| EscoFetcher.HitsOfEmptyQuery | src/utils/esco_fetcher.py:127-128 | the empty query matches every record |
| EscoFetcher.SearchSkillsSpec | src/utils/esco_fetcher.py:108-131 | a tagged record is returned exactly when its category holds it and the lowercased query occurs in its name or description; results keep taxonomy order |
| EscoFetcher.EmptyQueryMatchesAll | src/utils/esco_fetcher.py:122-131 | searching for the empty string returns every record, tagged with its category |
| EscoFetcher.SearchSkills | src/utils/esco_fetcher.py:108-131 | the nested loops collect the search results of the specification |
| OnetFetcher.PredefinedOnetCategories | src/utils/onet_fetcher.py:54-96 | the predefined taxonomy has the five categories basic, cross-functional, technical, resource management and system, in that order, each once |
| OnetFetcher.FetchOccupationSkillsSpec | src/utils/onet_fetcher.py:111-128 | only the two sample codes have skills; every other code gives the empty list |
| OnetFetcher.OccupationHitsSpec | src/utils/onet_fetcher.py:165-169 | an occupation is kept exactly when it matches the keyword, in list order |
| OnetFetcher.SearchOccupationsSpec | src/utils/onet_fetcher.py:130-171 | an occupation is found exactly when the lowercased keyword occurs in its lowercased title or description; results keep list order |
| OnetFetcher.DedupAll | src/utils/onet_fetcher.py:205-206 | de-duplicating every category keeps the number of categories |
| OnetFetcher.ExtendedLookup | src/utils/onet_fetcher.py:195-202 | after the extend loop an O*NET category holds its custom skills followed by its O*NET names; any other category is unchanged |
| OnetFetcher.CallerAfterLookup | src/utils/onet_fetcher.py:195-202 | the shallow copy shares the custom lists, so a category in both dicts is extended in the caller's dict too; the others are untouched |
| OnetFetcher.DedupAllLookup | src/utils/onet_fetcher.py:205-206 | each category's list is replaced by its de-duplicated list |
| OnetFetcher.MergeWithCustomSpec | src/utils/onet_fetcher.py:183-208 | the merged categories are those of either dict, each list has no repeats, and a skill is in a category exactly when the custom dict or O*NET lists it there |
| OnetFetcher.MergeWithCustomSkills | src/utils/onet_fetcher.py:183-208 | `merge_with_custom_skills` returns the merged dict and leaves the caller's dict as the specification says |
| OnetFetcher.ExtendCategory | src/utils/onet_fetcher.py:198-202 | one category is created if missing and extended by the O*NET names |
| OnetFetcher.DedupEach | src/utils/onet_fetcher.py:205-206 | the loop de-duplicates every category |
| ExperienceScorer.ExperienceScore | src/scoring/experience_scorer.py:76-97 | no requirement (None or 0) scores 70; a requirement with unknown candidate years scores 50 |
| ExperienceScorer.BelowByRatioMonotone | src/scoring/experience_scorer.py:113-126 | below the requirement the banded score rises with the ratio and stays in [0, 90) |
| ExperienceScorer.ExperienceScoreBands | src/scoring/experience_scorer.py:100-126 | up to 1.5 times the requirement scores 100, up to twice 95, beyond 85, and below the requirement less than 90 |
| ExperienceScorer.ExperienceScoreMonotone | src/scoring/experience_scorer.py:100-126 | up to 1.5 times the requirement, more years never score less |
| ExperienceScorer.AnalyzeExperienceGapSpec | src/scoring/experience_scorer.py:128-204 | the reported years default to 0; no requirement and unknown years return early with gap 0; otherwise the gap is required minus candidate and the status is the banded one; a non-zero gap percentage needs candidate years |
| ExperienceScorer.GapStatusMatchesScore | src/scoring/experience_scorer.py:165-202 | with a positive requirement each gap status corresponds to exactly one band of the experience score |
| ExperienceScorer.FirstNonEmpty | src/scoring/experience_scorer.py:62-66 | the first year pattern with a match is found, or none matched |
| ExperienceScorer.FirstLevel | src/scoring/experience_scorer.py:69-72 | the first seniority level named in the text is found, in dict order, or none is |
| ExperienceScorer.YearsFromText | src/scoring/experience_scorer.py:39-74 | an empty text gives None; when a pattern matches, the years are the largest number the first matching pattern captured; when none matches, there are years exactly when the lowercased text names a seniority level, and then they are the middle of the range of the first level named, in dict order |
| ExperienceScorer.ExtractYearsFromText | src/scoring/experience_scorer.py:39-74 | the pattern loop with its early return, then the seniority loop, return exactly the years that YearsFromText characterises |
| ExperienceScorer.FindSeniority | src/scoring/experience_scorer.py:66-72 | the seniority loop returns the middle of the range of the first level the lowercased text contains, or None when it contains none |
| ExperienceScorer.TotalExperienceSpec | src/scoring/experience_scorer.py:269-283 | the total of two histories is the sum of their totals |
| ExperienceScorer.TotalExperienceNonNegative | src/scoring/experience_scorer.py:282 | with non-negative durations no entry outweighs the total |
| ExperienceScorer.TotalExperienceAtLeastZero | src/scoring/experience_scorer.py:282 | non-negative durations give a non-negative total |
| ExperienceScorer.SeniorityLevel | src/scoring/experience_scorer.py:313-324 | every title gets a seniority level from 1 to 4 |
| ExperienceScorer.SortedHistory | src/scoring/experience_scorer.py:303-307 | sorting keeps the number of entries |
| ExperienceScorer.SortedHistorySpec | src/scoring/experience_scorer.py:303-307 | the sorted history is a permutation of the history, ordered by start date |
| ExperienceScorer.NonDecreasingEnds | src/scoring/experience_scorer.py:330-331 | a non-decreasing trajectory never drops below its first level |
| ExperienceScorer.ClassifySpec | src/scoring/experience_scorer.py:327-342 | single role exactly for fewer than two positions; upward exactly for a non-decreasing trajectory, which then ends at least where it started |
| ExperienceScorer.ClassifyNotUpward | src/scoring/experience_scorer.py:334-342 | a trajectory that is not upward has a step down somewhere, and is mixed exactly when it ends below its start |
| ExperienceScorer.Trajectory | src/scoring/experience_scorer.py:310-324 | one seniority level per sorted position |
| ExperienceScorer.CareerProgressionOf | src/scoring/experience_scorer.py:285-350 | no history gives "unknown" with no trajectory; otherwise one level in 1..4 per position, and the progression type of the trajectory |
| ExperienceScorer.IdentifyCareerProgression | src/scoring/experience_scorer.py:285-350 | the loop over the sorted history computes the career progression of the specification |
| ExperienceScorer.SignificantWords | src/scoring/experience_scorer.py:385-386 | only words longer than three characters of the job title are used |
| ExperienceScorer.SignificantWordsMember | src/scoring/experience_scorer.py:385-386 | a word is used exactly when it is in the job title and longer than three characters |
| ExperienceScorer.TitleMatchSpec | src/scoring/experience_scorer.py:384-387 | a position is relevant exactly when a job-title word longer than three characters occurs in its lowercased title |
| ExperienceScorer.RelevantCount | src/scoring/experience_scorer.py:377-392 | at most every position is relevant |
| ExperienceScorer.RelevanceOf | src/scoring/experience_scorer.py:352-401 | the relevance score lies in [0, 100] and is the percentage of relevant positions |
| ExperienceScorer.ScoreExperienceRelevance | src/scoring/experience_scorer.py:352-401 | the counting loop computes the relevance of the specification |
| HFSkillExtractor.SplitSentences | src/processing/hf_skill_extractor.py:164 | splitting on runs of sentence terminators always yields at least one piece |
| HFSkillExtractor.SplitSentencesSpec | src/processing/hf_skill_extractor.py:164 | no piece holds a terminator, and text without one is a single piece |
| HFSkillExtractor.PiecesHaveNoTerminator | src/processing/hf_skill_extractor.py:164 | each piece of the split is free of '.', '!', '?' and newline |
| HFSkillExtractor.SplitPlain | src/processing/hf_skill_extractor.py:164 | text without a terminator is left whole |
| HFSkillExtractor.PackInvariant | src/processing/hf_skill_extractor.py:166-188 | the chunking loop keeps the stripped non-empty sentences in order, each closed chunk stays within the token budget unless it is a single sentence, and the running length is the estimate of the open chunk |
| HFSkillExtractor.GroupsSpec | src/processing/hf_skill_extractor.py:166-190 | the chunks, read in order, are exactly the kept sentences, and each chunk is non-empty and within the budget or a single over-long sentence |
| HFSkillExtractor.ChunksNonEmpty | src/processing/hf_skill_extractor.py:179-188 | no empty chunk is ever emitted |
| HFSkillExtractor.JoinEach | src/processing/hf_skill_extractor.py:180 | one joined string per chunk |
| HFSkillExtractor.SplitText | src/processing/hf_skill_extractor.py:152-190 | the chunking computes the sentence groups of the specification, each joined with spaces |
| HFSkillExtractor.PackSentences | src/processing/hf_skill_extractor.py:166-190 | the chunking loop over the sentences computes the groups of the specification |
| HFSkillExtractor.AddSentence | src/processing/hf_skill_extractor.py:170-185 | one loop step either appends the sentence to the open chunk or closes it and opens a new one, as the specification does |
| HFSkillExtractor.ToEntity | src/processing/hf_skill_extractor.py:82-88 | the record keeps the word, entity group and score of the NER output |
| HFSkillExtractor.ConfidentSpec | src/processing/hf_skill_extractor.py:80-88 | a record is kept exactly when an NER entity with score at least the threshold produced it |
| HFSkillExtractor.DetectedSpec | src/processing/hf_skill_extractor.py:76-91 | a record is collected exactly when some chunk whose NER call succeeded produced it with enough confidence; failing chunks are skipped |
| HFSkillExtractor.UniqueByOrder | src/processing/hf_skill_extractor.py:202-212 | deduplication keeps entities in their original order |
| HFSkillExtractor.UniqueByKeys | src/processing/hf_skill_extractor.py:206-210 | the kept entities have distinct lowercased stripped texts |
| HFSkillExtractor.UniqueByLongKeys | src/processing/hf_skill_extractor.py:206-210 | every kept entity's lowercased stripped text is longer than two characters |
| HFSkillExtractor.UniqueByCover | src/processing/hf_skill_extractor.py:206-210 | every entity whose key is longer than two characters is represented by a kept entity with the same key |
| HFSkillExtractor.UniqueEntitiesSpec | src/processing/hf_skill_extractor.py:192-212 | the result is an ordered subsequence of the input, with distinct keys longer than two characters, covering every such key of the input |
| HFSkillExtractor.ExtractedConfident | src/processing/hf_skill_extractor.py:60-96 | every extracted skill reaches the confidence threshold |
| HFSkillExtractor.DeduplicateEntities | src/processing/hf_skill_extractor.py:192-212 | the loop with a seen list computes the deduplicated entities of the specification |
| HFSkillExtractor.AddConfident | src/processing/hf_skill_extractor.py:80-88 | the inner loop appends exactly the confident entities of one chunk |
| HFSkillExtractor.ExtractSkills | src/processing/hf_skill_extractor.py:60-96 | the chunk loop followed by deduplication computes the extracted skills of the specification |
| HFSkillExtractor.TechnicalTextsMember | src/processing/hf_skill_extractor.py:110-115 | a text is collected exactly when some entity with a technical label carries it |
| HFSkillExtractor.TechnicalSkillsSpec | src/processing/hf_skill_extractor.py:98-117 | the technical skills have no duplicates and are exactly the texts of entities labelled SKILL, TECH, ORG or PRODUCT |
| HFSkillExtractor.ExtractTechnicalSkills | src/processing/hf_skill_extractor.py:98-117 | returns the deduplicated technical texts of the extracted skills |
| HFSkillExtractor.CollectTechnical | src/processing/hf_skill_extractor.py:110-115 | the label loop collects the technical texts of the specification |
| HFSkillExtractor.StripIsPiece | src/processing/hf_skill_extractor.py:141 | stripping yields a contiguous piece of the string |
| HFSkillExtractor.PySliceIsPiece | src/processing/hf_skill_extractor.py:141 | a Python slice with clamped bounds is a contiguous piece of the text |
| HFSkillExtractor.ContextWindowSpec | src/processing/hf_skill_extractor.py:134-148 | the window starts at or after 0 and ends within the text; the record keeps the skill, label and score, and its context is a contiguous piece of the text |
| HFSkillExtractor.ContextsOf | src/processing/hf_skill_extractor.py:134-148 | one context record per entity |
| HFSkillExtractor.ContextsOfSpec | src/processing/hf_skill_extractor.py:134-148 | the k-th record belongs to the k-th entity and its context is a piece of the text |
| HFSkillExtractor.ExtractWithContext | src/processing/hf_skill_extractor.py:119-150 | the loop computes the context records of the extracted skills |
| HFSkillExtractor.MatchCategory | src/processing/hf_skill_extractor.py:241-247 | the first taxonomy entry related by substring in either direction gives the category, and none is found exactly when no entry is related |
| HFSkillExtractor.TaxonomyMapDistinct | src/processing/hf_skill_extractor.py:230-233 | the flattened taxonomy map has distinct keys |
| HFSkillExtractor.TaxonomyMapCovers | src/processing/hf_skill_extractor.py:230-233 | every listed skill, lowercased, is a key of the map |
| HFSkillExtractor.TaxonomyMapEntries | src/processing/hf_skill_extractor.py:230-233 | every entry of the map pairs a lowercased listed skill with a category that lists it |
| HFSkillExtractor.BuildTaxonomyMap | src/processing/hf_skill_extractor.py:230-233 | the nested loop builds the taxonomy map of the specification |
| HFSkillExtractor.PutCategory | src/processing/hf_skill_extractor.py:232-233 | the inner loop assigns the category to every lowercased skill of one category |
| HFSkillExtractor.FindCategory | src/processing/hf_skill_extractor.py:240-247 | the search loop with break finds the category of the specification |
| HFSkillExtractor.SortedContents | src/processing/hf_skill_extractor.py:235-250 | every entity text lands in exactly one place, a category or the uncategorized list |
| HFSkillExtractor.SortedPlacement | src/processing/hf_skill_extractor.py:235-250 | a text is uncategorized exactly when no taxonomy entry matches it, and every text under a category matched that category |
| HFSkillExtractor.SortedKeys | src/processing/hf_skill_extractor.py:243-245 | the categories created are distinct and each comes from the map |
| HFSkillExtractor.SortedCategories | src/processing/hf_skill_extractor.py:243-245 | every category created is a category of the taxonomy |
| HFSkillExtractor.SortedLeftOver | src/processing/hf_skill_extractor.py:249-250 | the uncategorized list is non-empty exactly when some text matches no entry |
| HFSkillExtractor.CategorizedContents | src/processing/hf_skill_extractor.py:214-255 | the categorized result holds exactly the entity texts, as a multiset |
| HFSkillExtractor.CategorizedKeys | src/processing/hf_skill_extractor.py:214-255 | the result keys are distinct and are taxonomy categories or "uncategorized" |
| HFSkillExtractor.CategorizedUncategorized | src/processing/hf_skill_extractor.py:252-253 | the "uncategorized" key is present exactly when some entity matches no taxonomy entry |
| HFSkillExtractor.CategorizeExtractedSkills | src/processing/hf_skill_extractor.py:214-255 | the loops compute the categorization of the specification |
| HFSkillExtractor.BatchExtract | src/processing/hf_skill_extractor.py:257-273 | one result per text, each the extracted skills of that text at the default threshold |
| JDSkillExtractor.ExtractSkillsFromText | src/processing/jd_skill_extractor.py:48-61 | empty text finds nothing; otherwise the skills of each category found with word boundaries in the lowercased text |
| JDSkillExtractor.FindHeading | src/processing/jd_skill_extractor.py:73-74 | finds the leftmost position where the keyword heading occurs, or proves there is none |
| JDSkillExtractor.SeparatorsEnd | src/processing/jd_skill_extractor.py:73 | the greedy run of colons and whitespace after the keyword ends at the first other character |
| JDSkillExtractor.CaptureEnd | src/processing/jd_skill_extractor.py:73 | the lazy capture stops at the first blank line or at the end of the text |
| JDSkillExtractor.SectionFor | src/processing/jd_skill_extractor.py:73-76 | there is no section exactly when the keyword heading never occurs |
| JDSkillExtractor.SectionForSpec | src/processing/jd_skill_extractor.py:73-76 | a found section follows the first heading and its separators, and runs up to the first blank line or the end of the text |
| JDSkillExtractor.ExtractSectionSpec | src/processing/jd_skill_extractor.py:68-78 | None exactly when no keyword has a heading; otherwise the section of the first keyword, in list order, that has one |
| JDSkillExtractor.NoSectionInEmptyText | src/processing/jd_skill_extractor.py:68-78 | an empty description has no section |
| JDSkillExtractor.ExtractExperienceRequirement | src/processing/jd_skill_extractor.py:80-100 | required exactly when some pattern captured a number; then min and max are captured numbers bounding all of them; otherwise 0, 0, not required |
| JDSkillExtractor.AnyWordSpec | src/processing/jd_skill_extractor.py:115 | an alternation matches exactly when one of its alternatives occurs between word boundaries |
| JDSkillExtractor.FoundLevels | src/processing/jd_skill_extractor.py:112-116 | at most one entry per education level |
| JDSkillExtractor.FoundLevelsMember | src/processing/jd_skill_extractor.py:114-116 | a level is reported exactly when its pattern matches |
| JDSkillExtractor.FoundLevelsOrder | src/processing/jd_skill_extractor.py:114-116 | levels are reported in the order of the level table |
| JDSkillExtractor.ExtractEducationRequirement | src/processing/jd_skill_extractor.py:102-121 | the required levels are the matching ones, and the requirement holds exactly when one matched |
| JDSkillExtractor.EducationLevelsSpec | src/processing/jd_skill_extractor.py:104-109 | phd, masters, bachelors, associate are reported in that order, each exactly when one of its alternatives occurs |
| JDSkillExtractor.PutCount | src/processing/jd_skill_extractor.py:141 | recording a positive count keeps every stored count equal to the skill's occurrences |
| JDSkillExtractor.CountStep | src/processing/jd_skill_extractor.py:138-141 | one step of the inner loop keeps the counts valid and covers one more skill |
| JDSkillExtractor.CountCategory | src/processing/jd_skill_extractor.py:138-141 | the inner loop records every occurring skill of one key category with its count |
| JDSkillExtractor.CategoryStep | src/processing/jd_skill_extractor.py:136-141 | one step of the outer loop covers one more category |
| JDSkillExtractor.CountKeySkills | src/processing/jd_skill_extractor.py:134-141 | the counts are valid and cover every occurring skill of the four key categories |
| JDSkillExtractor.SortedCounts | src/processing/jd_skill_extractor.py:143 | sorting keeps every counted skill once, with its count, in non-increasing count order |
| JDSkillExtractor.TopOfSorted | src/processing/jd_skill_extractor.py:144 | the first ten of the sorted counts are distinct occurring key skills in non-increasing order |
| JDSkillExtractor.LeftOutKeySkills | src/processing/jd_skill_extractor.py:143-144 | a skill left out means ten skills occur at least as often |
| JDSkillExtractor.IdentifyKeyTechnologies | src/processing/jd_skill_extractor.py:123-144 | at most ten distinct key-category skills that occur, most frequent first, and any occurring key skill left out is outnumbered by all ten |
| JDSkillExtractor.TotalSkills | src/processing/jd_skill_extractor.py:45 | the total is the number of skills over all categories |
| JDSkillExtractor.Extract | src/processing/jd_skill_extractor.py:19-46 | required skills come from a non-empty required section or else the whole description, preferred skills only from a preferred section, the total counts the required skills, and the experience and education requirements are those of their extractors |
| JDSkillExtractor.ExtractFallbacks | src/processing/jd_skill_extractor.py:34-35 | without a required section the whole description is searched, without a preferred section nothing is, and an empty description yields nothing |
| MainEnhanced.DefaultConfigSpec | src/main_enhanced.py:96-115 | the default weights 0.4, 0.3, 0.2, 0.1 sum to 1.0 and are accepted by the scorer; fuzzy threshold 85, semantic threshold 0.7, no stopword removal and no lowercasing |
| MainEnhanced.AddAllSpec | src/main_enhanced.py:178-179 | adding names to a set keeps it duplicate-free and holds exactly the old and the new names |
| MainEnhanced.CustomSetsLookup | src/main_enhanced.py:171-172 | every custom category is kept, each as a duplicate-free list |
| MainEnhanced.AddSourceLookup | src/main_enhanced.py:175-186 | a fetched source adds its key only when not empty, and the set under that key gains exactly the fetched entries |
| MainEnhanced.MergeSkillSourcesSpec | src/main_enhanced.py:166-189 | the merged keys are the custom categories plus esco_skills exactly when ESCO data is not empty plus onet_skills exactly when O*NET data is not empty, and every list is duplicate-free |
| MainEnhanced.MergeAddsCategoryNames | src/main_enhanced.py:178-179 | iterating the fetched ESCO dict adds its category names, and only those |
| MainEnhanced.PredefinedEscoAddsCategories | src/main_enhanced.py:178-179 | with the predefined ESCO taxonomy the four ESCO category names are what gets added |
| MainEnhanced.AddFetched | src/main_enhanced.py:175-186 | the set-creating add loop computes the source addition of the specification |
| MainEnhanced.MergeSkillSources | src/main_enhanced.py:166-189 | the three loops compute the merged sources of the specification |
| MainEnhanced.MergeSkillsAsWrittenTakesCategories | src/main_enhanced.py:512 | as written the merge of a category map keeps the category name and loses the skill name |
| MainEnhanced.FlattenMember | src/main_enhanced.py:512 | the flattened category map holds exactly the listed skill names |
| MainEnhanced.MergeSkillsSpec | src/main_enhanced.py:510-523 | the merged skills are duplicate-free, hold exactly the traditional skill names and the HF skills, and their count is at most the two counts together |
| MainEnhanced.AddAllLength | src/main_enhanced.py:516 | adding names grows a set by at most their number |
| MainEnhanced.HfSkillsAfter | src/main_enhanced.py:375-379 | a failed HF call falls back to an empty skill list |
| MainEnhanced.PipelineHfAddsNothing | src/main_enhanced.py:375-382 | the HF call always fails, so as written the merged list is the deduplicated category names of the traditional result with HF count 0, and the corrected merge gives exactly the deduplicated traditional skill names with HF count 0 |
| MainEnhanced.TruncateToInt | src/main_enhanced.py:369 | int() truncates toward zero |
| MainEnhanced.ExperienceAlwaysMissingAsWritten | src/main_enhanced.py:366-371 | as written both experience values are None, so the experience score is always 70 and the gap status is always no_requirement |
| MainEnhanced.ExperienceYearsSpec | src/main_enhanced.py:366-396 | read under the keys the extractors produce, the candidate gets the largest mentioned years and the job its least required years, and these reach the experience score |
| MainEnhanced.NormalizeNumbers | src/main_enhanced.py:368-371 | a number is truncated toward zero (2.9 gives 2, -2.9 gives -2) and any other value gives None |
| MainEnhanced.ReaderFor | src/main_enhanced.py:205-214 | a reader exists exactly for .pdf, .docx, .doc and .txt |
| MainEnhanced.ExtractTextSpec | src/main_enhanced.py:205-246 | an unsupported extension, a reader returning None and a stripped text under 50 characters each fail; otherwise the raw text is the stripped text and the text cleaned as written (`TextCleaner.Clean`) replaces it unless shorter than 30 characters, so the text handed on has at least 30 |
| MainEnhanced.PipelineSkillScoreSpec | src/main_enhanced.py:424-435 | the pipeline skill score lies in [0, 100], is 100 with no required skill, and semantic matches counted on top of exact ones can reach 100 with skills still missing |
| MatchScorer.DefaultWeightsAccepted | src/scoring/match_scorer.py:12-17 | the default weights sum to 1.0 and pass the check of set_weights |
| MatchScorer.Clamp | src/scoring/match_scorer.py:203 | the clamped score lies in [0, 100] and a score already there is unchanged |
| MatchScorer.ClampMonotone | src/scoring/match_scorer.py:203 | clamping never reverses the order of two scores |
| MatchScorer.SkillMatchScore | src/scoring/match_scorer.py:48-58 | no required skill scores 100, and the score never exceeds 100 |
| MatchScorer.SkillMatchScoreBounds | src/scoring/match_scorer.py:48-58 | the score lies in [0, 100], reaches 100 once exact plus 0.8 times fuzzy matches cover the requirement, and without fuzzy matches is the exact match percentage |
| MatchScorer.SkillMatchScoreMonotone | src/scoring/match_scorer.py:52-56 | more exact or fuzzy matches never lower the score |
| MatchScorer.SemanticScore | src/scoring/match_scorer.py:60-76 | a non-number scores 0, the score lies in [0, 100], and a similarity in [0, 1] scores 100 times itself |
| MatchScorer.ExperienceScore | src/scoring/match_scorer.py:93-98 | either value unknown scores 50; nothing required scores 100 |
| MatchScorer.ExperienceByRatioMonotone | src/scoring/match_scorer.py:103-123 | up to a ratio of 1.5 the score never falls as the ratio rises and stays in [0, 100] |
| MatchScorer.ExperienceByRatioBands | src/scoring/match_scorer.py:103-123 | a non-negative ratio scores in [0, 100]; meeting the requirement scores at least 90 and falling short scores below 100 |
| MatchScorer.QualificationScore | src/scoring/match_scorer.py:127-162 | the qualification score lies in [0, 100] |
| MatchScorer.QualificationScoreSpec | src/scoring/match_scorer.py:144-162 | the score is 40 for a degree plus 30 for certifications plus 30, 20, 10 or 0 for the years, and never falls with more years, a degree or certifications |
| MatchScorer.FinalScoreWith | src/scoring/match_scorer.py:186-205 | the weighted final score lies in [0, 100] |
| MatchScorer.FinalScoreMonotone | src/scoring/match_scorer.py:195-203 | with non-negative weights, higher sub-scores never lower the final score |
| MatchScorer.ScaledSumMonotone | src/scoring/match_scorer.py:195-203 | a weighted sum with non-negative weights, clamped, is monotone in each sub-score |
| MatchScorer.FinalScoreDefaults | src/scoring/match_scorer.py:186-200 | a missing sub-score counts as 0, and with the default weights the final score is 0.4, 0.3, 0.2, 0.1 times the sub-scores |
| MatchScorer.RatingBands | src/scoring/match_scorer.py:207-228 | the rating band follows the thresholds 90, 80, 70, 60, 50 and never drops as the score rises |
| MatchScorer.CompareScores | src/scoring/match_scorer.py:307-328 | score1 is better exactly when its final score is higher, otherwise score2, and the difference is the first minus the second |
| MatchScorer.CompareScoresAntisymmetric | src/scoring/match_scorer.py:307-328 | swapping the arguments negates the difference, and both orders name score2 exactly when the scores are equal |
| MatchScorer.Scorer.constructor | src/scoring/match_scorer.py:10-17 | a new scorer holds the default weights, which are valid |
| MatchScorer.Scorer.SetWeights | src/scoring/match_scorer.py:19-29 | weights summing to 1 within 0.01 are installed; otherwise ValueError is raised and the old weights stay; valid weights stay valid |
| MatchScorer.Scorer.FinalScore | src/scoring/match_scorer.py:164-205 | the final score lies in [0, 100] and without explicit weights uses the scorer's own |
| MatchScorer.Scorer.ComprehensiveScore | src/scoring/match_scorer.py:230-305 | the final score lies in [0, 100] with its rating, the matched count is exact plus fuzzy, and no required skill gives match rate 0 with skill score 100 |
| SimilarityMatcher.NormalizeSkills | src/processing/similarity_matcher.py:41-42 | empty names are skipped, so normalising never adds entries |
| SimilarityMatcher.KeepMember | src/processing/similarity_matcher.py:49 | the set intersection holds exactly the elements on both lists |
| SimilarityMatcher.DropMember | src/processing/similarity_matcher.py:52-53 | the set difference holds exactly the elements of the first list missing from the second |
| SimilarityMatcher.KeepDropCount | src/processing/similarity_matcher.py:49-53 | intersection and difference split a list without loss |
| SimilarityMatcher.KeepDropNoDups | src/processing/similarity_matcher.py:49-53 | intersection and difference of a set are sets |
| SimilarityMatcher.DistinctSize | src/processing/similarity_matcher.py:45-46 | a duplicate-free list has as many elements as its set |
| SimilarityMatcher.DropCount | src/processing/similarity_matcher.py:52-53 | removing a subset from a set leaves the difference of their sizes |
| SimilarityMatcher.BestCandidate | src/processing/similarity_matcher.py:59-67 | the best candidate scores at least the threshold and more than 0, no qualifying candidate scores higher, and on ties the first one seen wins |
| SimilarityMatcher.Resumes | src/processing/similarity_matcher.py:73 | the resume side of each fuzzy pair, in order |
| SimilarityMatcher.RemoveAtFacts | src/processing/similarity_matcher.py:76 | discarding the chosen resume skill removes exactly it from the pool |
| SimilarityMatcher.FuzzyStepScored | src/processing/similarity_matcher.py:58-76 | one pass of the outer loop keeps every recorded pair above the threshold with its ratio |
| SimilarityMatcher.FuzzyStepMatched | src/processing/similarity_matcher.py:69-70 | fuzzy matches are unmatched required skills, recorded once |
| SimilarityMatcher.FuzzyStepPool | src/processing/similarity_matcher.py:62-76 | each resume skill is either still in the pool or used by exactly one pair |
| SimilarityMatcher.FuzzyRunInv | src/processing/similarity_matcher.py:58-76 | the fuzzy loop keeps the pairs scored, the matches distinct and the resume pool split between pairs and leftovers |
| SimilarityMatcher.FindBest | src/processing/similarity_matcher.py:59-67 | the inner loop finds the best candidate of the specification |
| SimilarityMatcher.FuzzyPass | src/processing/similarity_matcher.py:55-76 | the outer loop computes the fuzzy pass of the specification |
| SimilarityMatcher.MatchNormalized | src/processing/similarity_matcher.py:44-93 | computes the match result of the specification from the normalised lists |
| SimilarityMatcher.MatchSkills | src/processing/similarity_matcher.py:20-93 | with a None threshold the default 85 is used; the result is the match of the specification |
| SimilarityMatcher.MatchSetsPartition | src/processing/similarity_matcher.py:44-93 | exact, fuzzy and missing are disjoint duplicate-free lists covering the required skills, exact ones are on the resume and the others are not |
| SimilarityMatcher.MatchSetsPairs | src/processing/similarity_matcher.py:55-82 | one pair per fuzzy match, each scoring at least the threshold with a distinct unrequired resume skill that is not reported as extra |
| SimilarityMatcher.MatchPartition | src/processing/similarity_matcher.py:20-93 | on the normalised inputs, exact, fuzzy and missing are disjoint and together hold every distinct required skill |
| SimilarityMatcher.MatchExactIsIntersection | src/processing/similarity_matcher.py:45-49 | the exact matches are precisely the skills on both normalised lists |
| SimilarityMatcher.MatchFuzzyPairs | src/processing/similarity_matcher.py:55-82 | every fuzzy pair names a fuzzy match, a resume skill that is not required and not extra, and a score at least the threshold |
| SimilarityMatcher.MatchPercentageBounds | src/processing/similarity_matcher.py:90-92 | the match percentage lies in [0, 100], is 0 with no required skill, and the total matched is exact plus fuzzy |
| SimilarityMatcher.DuplicateRequiredHalvesPercentage | src/processing/similarity_matcher.py:90-92 | a required skill listed twice counts twice in the denominator, so matching it scores 50 percent |
| SimilarityMatcher.SkillSimilarityIgnoresCase | src/processing/similarity_matcher.py:95-106 | letter case never changes a similarity score |
| SimilarityMatcher.Qualifying | src/processing/similarity_matcher.py:133-141 | at most one match per candidate |
| SimilarityMatcher.QualifyingSound | src/processing/similarity_matcher.py:133-141 | every match is a candidate scoring at least the threshold, with its similarity |
| SimilarityMatcher.SimilarSkillsSpec | src/processing/similarity_matcher.py:108-146 | at most top_n matches, best first, each a candidate at or above the threshold; when nothing is cut every qualifying candidate is present |
| SimilarityMatcher.PrefixSound | src/processing/similarity_matcher.py:146 | the kept prefix holds only qualifying candidates |
| SimilarityMatcher.PrefixOrdered | src/processing/similarity_matcher.py:144-146 | the kept prefix stays best first |
| SimilarityMatcher.QualifyingStep | src/processing/similarity_matcher.py:133-141 | one loop step appends the candidate exactly when it reaches the threshold |
| SimilarityMatcher.FindSimilarSkills | src/processing/similarity_matcher.py:108-146 | the loop, the sort and the cut compute the similar skills of the specification |
| SimilarityMatcher.CoverageMonotone | src/processing/similarity_matcher.py:169-172 | the coverage band never drops as the match percentage rises |
| SimilarityMatcher.MatchStatisticsCounts | src/processing/similarity_matcher.py:148-173 | exact plus fuzzy is the total matched, total plus missing is the number of distinct required skills and at most total_required, and coverage is Excellent exactly from 80 percent |
| SimilarityMatcher.CoverageExcellent | src/processing/similarity_matcher.py:169 | the Excellent band is given exactly from 80 percent on |
| SimilarityMatcher.MatchSetsSizes | src/processing/similarity_matcher.py:84-93 | the total matched is exact plus fuzzy and exact, fuzzy and missing together number the distinct required skills |
| SimilarityMatcher.MatchCategories | src/processing/similarity_matcher.py:195-206 | one result per required category |
| SimilarityMatcher.MatchCategoriesKeys | src/processing/similarity_matcher.py:197-204 | the result keys are the required categories, in order |
| SimilarityMatcher.MatchCategoriesAt | src/processing/similarity_matcher.py:197-204 | each category is matched against the resume's skills of that category, or none |
| SimilarityMatcher.MatchCategory | src/processing/similarity_matcher.py:200-204 | one category is matched with the resolved threshold |
| SimilarityMatcher.MatchWithCategories | src/processing/similarity_matcher.py:175-206 | the category loop computes the per-category matches of the specification |
| SimilarityMatcher.OfClass | src/processing/similarity_matcher.py:234-245 | a bucket never holds more skills than are missing |
| SimilarityMatcher.GapClassesPartition | src/processing/similarity_matcher.py:234-245 | every missing skill lands in exactly one of critical, important and nice-to-have |
| SimilarityMatcher.GapRecommendations | src/processing/similarity_matcher.py:256-279 | the list is exactly: the critical advice naming the first three critical gaps if there are any, then the important advice naming the first three important gaps if there are any, then the good-match message when there is neither; so one or two entries |
| SimilarityMatcher.ClassifyGaps | src/processing/similarity_matcher.py:234-245 | the loop sorts the missing skills into the three buckets of the specification |
| SimilarityMatcher.IdentifySkillGaps | src/processing/similarity_matcher.py:208-254 | the buckets partition the missing skills of the match, severity is High with a critical gap, Medium with an important one, else Low, and the recommendations are exactly the advice list of the critical and important buckets, the good-match advice exactly at Low |
| SkillExtractor.KeptTexts | src/processing/skill_extractor.py:82-86 | at most one name per entity |
| SkillExtractor.KeptTextsMember | src/processing/skill_extractor.py:83-86 | a name is kept exactly when an ORG, PRODUCT, GPE or NORP entity longer than two characters and absent from the taxonomy carries it |
| SkillExtractor.ExtractWithNer | src/processing/skill_extractor.py:70-88 | the entity loop computes the first twenty distinct kept names |
| SkillExtractor.NerSkillsSpec | src/processing/skill_extractor.py:70-88 | at most twenty distinct names, each from a kept entity, and every kept name is present unless twenty were already taken |
| SkillExtractor.Extract | src/processing/skill_extractor.py:28-54 | the taxonomy categories are those found with word boundaries in the lowercased text, and extracted_entities gains the NER names when there are any |
| SkillExtractor.ExtractTaxonomyPart | src/processing/skill_extractor.py:41-46 | a category is present exactly when one of its skills occurs, holding those skills in order |
| SkillExtractor.ExtractYearsOfExperience | src/processing/skill_extractor.py:90-117 | total_mentions counts the captured numbers and max_years is the largest of them, or both are 0 without a mention |
| SkillExtractor.CountedNamesMember | src/processing/skill_extractor.py:129-132 | a name is counted exactly when it is listed under a category other than extracted_entities |
| SkillExtractor.GetSkillCount | src/processing/skill_extractor.py:119-133 | the count never exceeds the number of listed names |
| SkillExtractor.GetSkillCountDistinct | src/processing/skill_extractor.py:119-133 | the count is the number of distinct names outside extracted_entities |
| SkillExtractor.GetSkillCountIgnoresEntities | src/processing/skill_extractor.py:131 | adding an extracted_entities list never changes the count |
| SkillExtractor.FirstCategory | src/processing/skill_extractor.py:151-154 | the first category listing the lowercased skill is found, and none is found exactly when no category lists it |
| SkillExtractor.CategorizeSkills | src/processing/skill_extractor.py:135-161 | the loop computes the categorization of the specification |
| SkillExtractor.CategorizedLookup | src/processing/skill_extractor.py:145-161 | each category holds exactly the skills, in input order, that file under it, and is absent when there are none |
| SkillExtractor.CategorizedContents | src/processing/skill_extractor.py:145-161 | every skill lands in exactly one category, other included |
| SummaryGenerator.CalculateRating | src/scoring/summary_generator.py:130-143 | the report uses the same six rating labels at 90, 80, 70, 60 and 50 as the scorer |
| SummaryGenerator.MatchRate | src/scoring/summary_generator.py:145-149 | no total gives 0, a matched count within the total gives a rate in [0, 100], and matching everything gives 100 |
| SummaryGenerator.AlignmentBands | src/scoring/summary_generator.py:151-162 | the five interpretations sit at the thresholds 0.8, 0.7, 0.6, 0.5 and never drop as the similarity rises |
| SummaryGenerator.BandOf | src/scoring/summary_generator.py:205-219 | the final recommendation band is chosen by the thresholds 80, 70 and 60 |
| SummaryGenerator.LargeGapUnadvisedAsWritten | src/scoring/summary_generator.py:194-195 | as written a candidate below 40 percent of the required years gets status large_gap, which the list does not name, so no experience advice is given |
| SummaryGenerator.AdvisedIffScoreBelow80 | src/scoring/summary_generator.py:194-195 | with large_gap in place of critical_gap, experience advice is given exactly when the experience score is below 80 |
| SummaryGenerator.OrderedAppend | src/scoring/summary_generator.py:173-219 | appending at most one entry of the next rank keeps the list in rule order |
| SummaryGenerator.OrderedPieces | src/scoring/summary_generator.py:173-219 | five conditional appends in rule order give a list in rule order |
| SummaryGenerator.BoundedPieces | src/scoring/summary_generator.py:236-264 | a bound on every appended entry bounds every entry of the list |
| SummaryGenerator.TakeFiveThenThree | src/scoring/summary_generator.py:184-191 | the first three of the first five are the first three, and up to three names both cuts agree |
| SummaryGenerator.InPieces | src/scoring/summary_generator.py:173-219 | an entry of the list comes from one of its appends |
| SummaryGenerator.GenerateRecommendations | src/scoring/summary_generator.py:164-221 | the successive appends, with the experience advice for the statuses the code lists (moderate_gap, significant_gap, critical_gap), compute the recommendations of the specification |
| SummaryGenerator.RecommendationsShape | src/scoring/summary_generator.py:173-221 | one to five entries in rule order, the last the advice of the score band, and the first is the acquire-skills advice exactly when the score is below 70 |
| SummaryGenerator.RecommendationsEntries | src/scoring/summary_generator.py:176-203 | the missing-skills entry is present exactly when skills are missing and names the first three; the experience advice exactly when there is an analysis whose status is moderate_gap, significant_gap or critical_gap, as written; the highlight entry exactly when something matched |
| SummaryGenerator.IntendedAdvisesLargeGap | src/scoring/summary_generator.py:194-195 | the corrected list equals the written one for every status other than large_gap and critical_gap, and for large_gap only the corrected list carries the experience advice |
| SummaryGenerator.LongNames | src/scoring/summary_generator.py:250-254 | filtering never adds names |
| SummaryGenerator.LongNamesMember | src/scoring/summary_generator.py:250-254 | a name is kept exactly when it is longer than three characters |
| SummaryGenerator.IdentifyStrengths | src/scoring/summary_generator.py:223-266 | the successive appends compute the strengths of the specification |
| SummaryGenerator.StrengthsShape | src/scoring/summary_generator.py:236-266 | at most five strengths in rule order, each naming at most three skills |
| SummaryGenerator.StrengthsOfShape | src/scoring/summary_generator.py:236-266 | for any rule outcomes the list has at most five entries in rule order, each naming at most three skills |
| SummaryGenerator.StrengthsRules | src/scoring/summary_generator.py:236-264 | each strength is present exactly when its rule holds: skill score at least 80, semantic at least 80, experience at least 90, an extra skill longer than three characters, an exact match |
| SummaryGenerator.StrengthsOfRules | src/scoring/summary_generator.py:236-264 | each entry is present exactly when its condition holds |
| SummaryGenerator.GenerateSummary | src/scoring/summary_generator.py:268-316 | the successive appends compute the summary parts of the specification, joined with a vertical-bar separator |
| SummaryGenerator.SummaryShape | src/scoring/summary_generator.py:281-316 | three or four parts, four exactly when there is an experience message; the assessment first, the skill count of exact plus fuzzy matches second, the band verdict last |
| SummaryGenerator.JobTitle | src/scoring/summary_generator.py:84 | a missing or empty title becomes "Not specified", any other is kept |
| SummaryGenerator.GenerateReport | src/scoring/summary_generator.py:15-128 | total matched is exact plus fuzzy plus semantic, total required adds the missing skills, so the match rate lies in [0, 100], is 100 with nothing missing and something matched, and 0 with nothing required; rating, interpretation and job title are those of their functions, and recommendations (with the written status list), strengths and summary are those of their generators |
| Taxonomy.LowerAll | src/processing/skill_extractor.py:25 | each name lowercased, in order |
| Taxonomy.LoweredNamesMember | src/processing/skill_extractor.py:21-26 | a name is in the flattened list exactly when it is the lowercase form of a listed skill |
| Taxonomy.FlattenSkills | src/processing/jd_skill_extractor.py:12-17 | the flattened skill set has no duplicates |
| Taxonomy.FlattenSkillsMember | src/processing/jd_skill_extractor.py:12-17 | the flattened set holds exactly the lowercased skills of every category |
| Taxonomy.FindWord | src/processing/skill_extractor.py:67-68 | the leftmost occurrence of the word with a word boundary at both ends is found, or there is none |
| Taxonomy.SkillExistsSpec | src/processing/skill_extractor.py:56-68 | a skill exists exactly when it occurs somewhere with a word boundary at both ends |
| Taxonomy.JavaNotInJavascript | src/processing/jd_skill_extractor.py:63-66 | java is not found inside javascript but is found as a word of its own |
| Taxonomy.SymbolEndNeedsWordAfter | src/processing/jd_skill_extractor.py:65 | a skill ending in a symbol such as c++ is only found when a word character follows it |
| Taxonomy.CountFromPositive | src/processing/jd_skill_extractor.py:139 | some occurrence is counted exactly when the search finds one |
| Taxonomy.CountWord | src/processing/jd_skill_extractor.py:139 | the count of word occurrences is positive exactly when the skill exists in the text |
| Taxonomy.FoundIn | src/processing/jd_skill_extractor.py:57-59 | a category never yields more skills than it lists |
| Taxonomy.FoundInMember | src/processing/jd_skill_extractor.py:57-59 | a listed skill is found exactly when its lowercase form occurs as a word |
| Taxonomy.FoundInOrder | src/processing/jd_skill_extractor.py:57-59 | found skills keep the order of the category list |
| Taxonomy.FoundSkills | src/processing/jd_skill_extractor.py:54-61 | at most one entry per category and no empty category |
| Taxonomy.FoundSkillsKeys | src/processing/jd_skill_extractor.py:54-61 | every category in the result is a taxonomy category |
| Taxonomy.FoundSkillsLookup | src/processing/jd_skill_extractor.py:54-61 | a category is present exactly when one of its skills is found, holding those skills in order |
| Taxonomy.MatchTaxonomy | src/processing/skill_extractor.py:38-46 | the nested loop computes the found skills of the specification |
| TextCleaner.UrlRunEnd | src/extraction/text_cleaner.py:48 | the greedy run of URL characters ends at the first character outside the class |
| TextCleaner.SchemeAt | src/extraction/text_cleaner.py:48 | a scheme is http:// or https:// and lies within the text |
| TextCleaner.UrlEnd | src/extraction/text_cleaner.py:48 | a URL match starting here is never empty and ends within the text |
| TextCleaner.RemoveUrls | src/extraction/text_cleaner.py:46-49 | removing URLs never lengthens the text |
| TextCleaner.RemoveUrlsNoScheme | src/extraction/text_cleaner.py:46-49 | text without a colon has no URL and is left unchanged |
| TextCleaner.UrlBetweenWords | src/extraction/text_cleaner.py:46-49 | a URL after plain words is deleted up to the first character outside the URL class, and the rest is processed alike |
| TextCleaner.UrlRemovalExample | src/extraction/text_cleaner.py:46-49 | the https URL in a sentence is removed and the words around it stay |
| TextCleaner.DropNewlines | src/extraction/text_cleaner.py:59 | the squeezed text never grows and does not start with a newline |
| TextCleaner.CollapseSpacesSpec | src/extraction/text_cleaner.py:58 | after collapsing every whitespace run is one blank, no two blanks are adjacent, and the non-space characters are unchanged |
| TextCleaner.CollapseSingleSpaces | src/extraction/text_cleaner.py:58 | text already single-spaced with blanks is unchanged |
| TextCleaner.PlainWordsUnchanged | src/extraction/text_cleaner.py:56-60 | single-spaced text passes whitespace normalisation unchanged |
| TextCleaner.SqueezeNoNewline | src/extraction/text_cleaner.py:59 | text without a newline passes the newline step unchanged |
| TextCleaner.NormalizeWhitespaceSpec | src/extraction/text_cleaner.py:56-60 | the result has no newline, only single blanks, and the same non-space characters; the newline step never fires after the first |
| TextCleaner.NormalizeWhitespaceExample | src/extraction/text_cleaner.py:56-60 | runs of several spaces between words become single spaces |
| TextCleaner.DeleteChars | src/extraction/text_cleaner.py:64 | deleting characters never lengthens the text |
| TextCleaner.BlankOthers | src/extraction/text_cleaner.py:65 | replacing characters by blanks keeps the length |
| TextCleaner.DeleteGlyphsKeepsWords | src/extraction/text_cleaner.py:64 | deleting only the bullet glyphs, as the corrected step does, keeps every word character |
| TextCleaner.DeleteCharsWordChars | src/extraction/text_cleaner.py:64 | deleting a character class removes from the word characters exactly the members of that class, in order |
| TextCleaner.BlankOthersKeepsWords | src/extraction/text_cleaner.py:65 | blanking the other characters keeps every word character |
| TextCleaner.BlankOthersPlain | src/extraction/text_cleaner.py:65 | after blanking only word characters, whitespace and the listed punctuation remain |
| TextCleaner.BlankOthersOfPlain | src/extraction/text_cleaner.py:65 | text of allowed characters only is unchanged |
| TextCleaner.DeleteCharsNone | src/extraction/text_cleaner.py:64 | text without any class character is unchanged |
| TextCleaner.RemoveSpecialCharsSpec | src/extraction/text_cleaner.py:62-66 | as written, only allowed characters remain, no character of the garbled class and no bullet glyph survives, the word characters are those of the input minus the garbled class, and plain text without a garbled-class character is unchanged |
| TextCleaner.RemoveSpecialCharsIntendedSpec | src/extraction/text_cleaner.py:62-66 | with the corrected glyph class, only allowed characters remain, no bullet glyph survives, every word character is kept, and plain text is unchanged |
| TextCleaner.DeleteMojibakeFromName | src/extraction/text_cleaner.py:64 | as written the character class deletes the letter n with tilde from a name |
| TextCleaner.SpecialCharsDropLetters | src/extraction/text_cleaner.py:64 | as written a word character is lost from a name, while the intended bullet class keeps it |
| TextCleaner.SpecialCharsExample | src/extraction/text_cleaner.py:62-66 | bullet characters between listed skills are gone after the written step and after the corrected one |
| TextCleaner.BulletBlankedAsWritten | src/extraction/text_cleaner.py:62-66 | as written a bullet between two letters is not deleted by the garbled class but blanked by the next step, so a•b gives "a b"; the corrected glyph class deletes it, giving "ab" |
| TextCleaner.SpaceRunEnd | src/extraction/text_cleaner.py:70 | the leading whitespace run ends at the first other character |
| TextCleaner.MarkerEnd | src/extraction/text_cleaner.py:70 | a line-start bullet match is never empty and ends within the text |
| TextCleaner.StripMarkersInsideLine | src/extraction/text_cleaner.py:70 | without a newline nothing after the start is touched |
| TextCleaner.BulletsAtStartOnly | src/extraction/text_cleaner.py:68-71 | on a single line only the leading marker and the spaces around it are removed |
| TextCleaner.KeepNonStop | src/extraction/text_cleaner.py:76 | filtering never adds words |
| TextCleaner.KeepNonStopMember | src/extraction/text_cleaner.py:76 | a word is kept exactly when its lowercase form is not a stopword |
| TextCleaner.KeepNonStopOrder | src/extraction/text_cleaner.py:76 | kept words stay in order |
| TextCleaner.KeepNonStopWords | src/extraction/text_cleaner.py:75-76 | the kept words are still non-empty and blank-free |
| TextCleaner.RemoveStopwordsSpec | src/extraction/text_cleaner.py:73-77 | splitting the result gives, in order, exactly the input words that are not stopwords |
| TextCleaner.Clean | src/extraction/text_cleaner.py:19-44 | the pipeline as written: empty text gives empty text, and the result never starts or ends with whitespace |
| TextCleaner.CleanIntended | src/extraction/text_cleaner.py:19-44 | the pipeline with the corrected glyph class: empty text gives empty text, and the result never starts or ends with whitespace |
| TextCleaner.NameSurvivesWhitespace | src/extraction/text_cleaner.py:32-34 | a name with n-tilde passes URL removal and whitespace normalisation unchanged |
| TextCleaner.CleanDropsLetters | src/extraction/text_cleaner.py:19-44 | as written cleaning turns the name Pe-n-tilde-a into pea |
| TextCleaner.FinishShortName | src/extraction/text_cleaner.py:38-44 | lowercasing and stripping turn Pea into pea |
| TextCleaner.FinishName | src/extraction/text_cleaner.py:38-44 | lowercasing and stripping keep the n-tilde |
| TextCleaner.CleanKeepsLetters | src/extraction/text_cleaner.py:19-44 | with the corrected glyph class cleaning keeps the n-tilde of the name |
| TextCleaner.RemoveStopwordsChars | src/extraction/text_cleaner.py:73-77 | stopword removal introduces no character except the blank |
| TextCleaner.LowerStrNoUpper | src/extraction/text_cleaner.py:39 | lowercasing leaves no upper-case letter |
| TextCleaner.CleanLowercases | src/extraction/text_cleaner.py:38-44 | a lowercasing cleaner returns text without upper-case letters (ASCII or Latin-1) |
| TextCleaner.JoinNoDoubleSpace | src/extraction/text_cleaner.py:77 | joining words with single blanks never puts two blanks together |
| TextCleaner.PlainStepsUnchanged | src/extraction/text_cleaner.py:34-36 | on words and whitespace with no character of the garbled class, the special-character and bullet steps change nothing after whitespace normalisation |
| TextCleaner.CleanPlainText | src/extraction/text_cleaner.py:19-44 | cleaning text of words and whitespace with no character of the garbled class never leaves two adjacent blanks |
| TextCleaner.CleanWhitespaceExample | src/extraction/text_cleaner.py:19-44 | runs of spaces between words are cleaned, as written, to single spaces |
| TextCleaner.CleanSingleSpaced | src/extraction/text_cleaner.py:19-44 | single-spaced trimmed plain text with no character of the garbled class is only lowercased, or unchanged without lowercasing |
| TextCleaner.FinishTrimmed | src/extraction/text_cleaner.py:38-44 | trimmed text is only lowercased at the end |
| TextCleaner.CleanLowercaseExample | src/extraction/text_cleaner.py:19-44 | as written, Python JAVASCRIPT React is cleaned to python javascript react |
| TextCleaner.SectionName | src/extraction/text_cleaner.py:89-95 | every section has a non-empty name |
| TextCleaner.HeaderWords | src/extraction/text_cleaner.py:97-103 | every section pattern has at least two non-empty alternatives |
| TextCleaner.HeaderOfSpec | src/extraction/text_cleaner.py:113-116 | a line announces a section exactly when it matches its pattern and none before it, and none when no pattern matches |
| TextCleaner.EmptyLineNoHeader | src/extraction/text_cleaner.py:110-111 | an empty line announces no section |
| TextCleaner.StrippedLines | src/extraction/text_cleaner.py:105-109 | one stripped line per line |
| TextCleaner.Headers | src/extraction/text_cleaner.py:113-116 | one header verdict per line |
| TextCleaner.LatestIsMostRecent | src/extraction/text_cleaner.py:106-116 | the current section is the most recent header, or none before the first header |
| TextCleaner.NoHeaderNothingFiled | src/extraction/text_cleaner.py:118-119 | lines before any header are filed nowhere |
| TextCleaner.EveryLineFiledOnce | src/extraction/text_cleaner.py:105-121 | when the first line is a header every non-blank line is filed under exactly one section |
| TextCleaner.MatchHeader | src/extraction/text_cleaner.py:113-116 | the pattern loop with break finds the header of the specification |
| TextCleaner.FilingStep | src/extraction/text_cleaner.py:108-119 | one more line is appended to a section exactly when it is not blank and that section is current |
| TextCleaner.FileLineEntry | src/extraction/text_cleaner.py:118-119 | appending a line changes only the current section's list |
| TextCleaner.FiledMapStep | src/extraction/text_cleaner.py:108-119 | the loop keeps every section's list equal to the lines filed under it so far |
| TextCleaner.FiledInitially | src/extraction/text_cleaner.py:89-95 | the five empty lists agree with filing no lines |
| TextCleaner.ReadLine | src/extraction/text_cleaner.py:109-119 | a header line switches the current section, and a non-blank line is appended to the current section |
| TextCleaner.ExtractSections | src/extraction/text_cleaner.py:79-121 | every one of the five sections holds exactly the lines filed under it |
| Sorting.InsertPermutes | src/processing/jd_skill_extractor.py:143 | inserting one entry into a sorted list adds exactly that entry |
| Sorting.InsertInOrder | src/processing/jd_skill_extractor.py:143 | inserting into an ordered list keeps it ordered |
| Sorting.SortByPermutes | src/processing/jd_skill_extractor.py:143 | sorting returns a permutation of its input |
| Sorting.SortByInOrder | src/processing/jd_skill_extractor.py:143 | sorting returns a list in order |
| Sorting.SortDescSpec | src/processing/similarity_matcher.py:144 | sorting by a key with reverse=True returns a permutation with non-increasing keys |
| Sorting.AdjacentToPairwise | src/processing/similarity_matcher.py:144 | non-increasing neighbours give non-increasing keys between any two positions |
| TextUtil.LowerStr | src/processing/similarity_matcher.py:41 | lowercasing keeps the length |
| TextUtil.LowerStrIdempotent | src/processing/similarity_matcher.py:106 | lowercasing twice is lowercasing once |
| TextUtil.StripSpec | src/processing/similarity_matcher.py:41 | the stripped string neither starts nor ends with whitespace, and is empty exactly when the input is all whitespace |
| TextUtil.StripSlice | src/processing/hf_skill_extractor.py:141 | the stripped string is a contiguous piece of the input |
| TextUtil.WordsAreWords | app_multi_resume.py:183 | every piece of split() is a non-empty run without whitespace |
| TextUtil.WordsOfJoin | src/extraction/text_cleaner.py:75-77 | splitting words joined with blanks gives the words back |
| TextUtil.DedupNoDups | src/processing/similarity_matcher.py:45-46 | a set listed in first-occurrence order has no duplicates |
| TextUtil.DedupMember | src/processing/similarity_matcher.py:45-46 | the set holds exactly the elements of the list |
| TextUtil.MaxOf | src/processing/jd_skill_extractor.py:96 | the maximum is a member bounding every element |
| TextUtil.MinOf | src/processing/jd_skill_extractor.py:95 | the minimum is a member bounded by every element |
| TextUtil.PySlice | src/processing/hf_skill_extractor.py:141 | a slice with clamped bounds is a contiguous piece, possibly empty |
| TextUtil.Take | src/processing/similarity_matcher.py:146 | s[:n] keeps at most n leading elements, and a negative n drops from the end |
| TextUtil.NatToString | src/scoring/summary_generator.py:288 | the decimal form of a number is a non-empty string of digits |
| TextUtil.ParseNatToString | src/scoring/summary_generator.py:288 | reading the decimal form gives the number back |
| TextUtil.Lookup | src/processing/similarity_matcher.py:198 | a key is absent exactly when it is not among the dict's keys |
| TextUtil.PutLookup | src/processing/hf_skill_extractor.py:233 | after d[k] = v the key k maps to v and every other key is unchanged |
| TextUtil.PutTwice | src/processing/hf_skill_extractor.py:233 | assigning the same key twice keeps only the last value |
| TextUtil.AppendToKeyLookup | src/processing/skill_extractor.py:157-159 | a defaultdict append extends the list under its key and leaves the others unchanged |
| TextUtil.AppendToKeyContents | src/processing/skill_extractor.py:157-159 | a defaultdict append adds exactly one value to the dict's contents |
| TextUtil.Percentage | app_standalone.py:129 | no whole gives 0, a part within the whole gives a percentage in [0, 100], and all of it gives 100 |
| TextUtil.PercentageExtremes | app_multi_resume.py:174 | the percentage is 100 exactly for the whole and 0 exactly for nothing |
| TextUtil.FilterMember | src/processing/similarity_matcher.py:41 | a comprehension with a condition keeps exactly the elements that satisfy it |
| TextUtil.FilterSubsequence | src/processing/similarity_matcher.py:41 | a comprehension keeps the elements in order |
| TextUtil.FilterPercentage | app_standalone.py:128-129 | the share of kept elements is 100 exactly when every element passes and 0 exactly when none does |
| TextUtil.FirstWhereNone | src/extraction/text_cleaner.py:113-116 | a search loop with break finds nothing exactly when no element passes |
| TextUtil.FirstWherePicks | src/extraction/text_cleaner.py:113-116 | the loop with break returns the first element that passes |
| TextUtil.SplitLinesJoin | src/extraction/text_cleaner.py:105 | joining the pieces of split on newlines gives the text back |
| TextUtil.YearsOf | app_multi_resume.py:111 | the largest year count found, or 0 when none is found |

## Left out

- The Streamlit user interface of the three apps (page setup, widgets, charts, `main`, the `display_*` functions) and `app.py`, which only renders results.
- Database persistence (`src/database.py`, `src/init_database.py`, `src/database_integration.py`, `view_database.py`): create, read, update and delete operations over SQLite, which are I/O only.
- Reading PDF and DOCX files, and writing the text and JSON report files. The reader chosen for a file suffix is modelled; the bytes it returns are a parameter.
- `src/main.py` and `src/utils/logger.py`: plumbing and logging setup. `src/main.py` calls `MatchScorer()` with arguments it does not accept.
- The network and caching parts of the ESCO and O*NET fetchers. Fetched data is passed in as a value.
- The foreign models are parameters and are not modelled further: the sentence transformer and its cosine similarity (given as a similarity matrix), spaCy NER and the Hugging Face pipeline (given as their entity lists), KMeans (given as its labels) and `fuzz.ratio` (given as a function into 0..100). The `text[:100000]` truncation of the text handed to spaCy belongs to the entity list and is not modelled.
- Regular expressions that only produce numbers or yes/no answers are parameters, given as the matches they find: the years-of-experience patterns, the person-name fallback, and email, phone and contact detection. E-mail removal in `clean` is likewise the parameter `removeEmails`. URL removal, whitespace collapsing, special-character and bullet handling, section capture, word-boundary search and the word tokenisers are modelled exactly on Latin-1 text (see the next line for other characters).
- The `\w` class of Python regular expressions is modelled for ASCII and Latin-1 letters and digits (`TextUtil.IsWordChar`), and `lower()` for ASCII capitals and the Latin-1 capitals À to Þ except the multiplication sign × (`TextUtil.Lower`). Other Unicode letters, and the Latin-1 letters whose lower-case form lies outside that range, are outside the model. Whitespace (`str.isspace()`, `strip()`, `split()` and the `\s` class) is modelled for the Latin-1 range only (`TextUtil.IsSpace`): the Unicode spaces U+1680, U+2000 to U+200A, U+2028, U+2029, U+202F, U+205F and U+3000 count as non-space, so `TextUtil.Strip`, `TextUtil.Words`, `TextCleaner.CollapseSpaces` and `TextCleaner.NormalizeWhitespace` leave them in place where Python would strip, split or collapse them.
- `round(x, n)` and the `:.1f` formatting of scores: all scores are exact reals. The one place where a rounded number enters a text, the whole-number percentage in a strength message of `app_multi_resume.py`, is modelled by `MultiResume.RoundHalfEven`.
- Python set and dictionary iteration order: sets are listed in first-insertion order, which CPython does not promise for strings.
- Sorting.SortDescSpec: states a permutation with non-increasing keys. The stability of Python's sort holds for `Sorting.SortBy` by construction, but is not stated as a lemma.
- Timestamps in the report (`src/scoring/summary_generator.py:83`, `src/main_enhanced.py:483`).
- `extract_work_history` of the experience scorer (its third date pattern can leave a group unset), `_parse_sections` and `_extract_contact_info` of the enhanced pipeline: regular-expression parsing of free text that no modelled property depends on. `identify_career_progression` takes the work history as its input.
- `generate_detailed_analysis` and `generate_json_report` of the summary generator: text formatting and JSON serialisation of the report that is modelled.
- The orchestration of `analyze` in `src/main_enhanced.py` (logging, progress output, report files) is modelled through its parts: text extraction and validation, skill merging, experience normalisation and the skill-score call.
- MainEnhanced.ExtractText: models suffix dispatch, the validation errors and the cleaned-text fallback; the contact and section fields of the result are not modelled.

## Findings

| source | as written | input that shows it | evidently intended | confidence | as-written member | corrected member |
|---|---|---|---|---|---|---|
| src/extraction/text_cleaner.py:64 | the character class meant for mis-decoded bullet glyphs also lists Latin-1 letters such as ñ, so `clean` deletes them | the name "Peña" becomes "pea" | delete only the glyphs and keep every word character | not executed | TextCleaner.CleanDropsLetters | TextCleaner.CleanKeepsLetters |
| src/main_enhanced.py:510-523 | `set(traditional)` over the category map from the skill extractor collects the category names | {"programming_languages": ["Python"]} yields "programming_languages" and not "Python" | collect the skill names of every category | not executed | MainEnhanced.MergeSkillsAsWrittenTakesCategories | MainEnhanced.MergeSkillsSpec |
| src/main_enhanced.py:366-371 | experience normalisation reads the key 'years', but the extractors return 'max_years' and 'min_years', so both values are None | any resume and JD: the experience score is always 70 and the gap status is always no_requirement | read 'max_years' from the resume and 'min_years' from the JD | not executed | MainEnhanced.ExperienceAlwaysMissingAsWritten | MainEnhanced.ExperienceYearsSpec |
| src/scoring/summary_generator.py:194-195 | experience advice is given for 'critical_gap', a status the experience scorer never produces, and not for its 'large_gap' | 1 year held against 5 required gives 'large_gap' and no experience advice | advise for every gap status whose score is below 80, including 'large_gap' | not executed | SummaryGenerator.LargeGapUnadvisedAsWritten | SummaryGenerator.AdvisedIffScoreBelow80 |
