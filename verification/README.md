# Hashtag engagement ranking, modelled in Dafny

Hashtag-Analysis ranks a list of Instagram hashtags by how much engagement their top
posts get per minute. `analysis.py` does the following:

- reads the hashtag file and normalises each line into a tag (`get_hash_tags`);
- fetches each tag's top posts and total post count (`get_tag_data`);
- computes per-tag statistics (`engagement_calculations`);
- builds a dict from tag to statistics and sorts its items worst-first by
  `(engagement_per_min, user_amount)` (`rank_hash_tags`);
- renders a CSV-like report with one line per ranked tag (`generate_output`).

The model has six modules:

- `Results` (`results.dfy`): `Option`, a `Result` that works with Dafny's `:-`, and the two
  Python exceptions the program can raise here:
  - `ZeroDivisionError`, when a post's age rounds down to zero minutes;
  - `KeyError`, when `generate_output` looks up a tag missing from the dict.
- `Engagement` (`engagement.dfy`): `engagement_calculations`, in exact `real` arithmetic.
  Each post carries its optional likes, views and comments, and its age in whole minutes.
- `Ranker` (`ranker.dfy`): the dict comprehension and the stable sort of `rank_hash_tags`.
  The dict is Python's insertion-ordered dict, modelled as a sequence of entries with
  distinct tags. `ToMap` gives its lookup view. `Put` models `d[k] = v`: a key already
  present keeps its place and takes the new value. The sort is a stable insertion sort
  on the key pair, compared as Python compares tuples.
- `Report` (`report.dfy`): `generate_output`, modelled as a method with the source's loop.
  The number formatting of the f-string is a pair of function parameters.
- `HashTags` (`hashtags.dfy`): `line.replace("#", "").strip()`. The whitespace set is that
  of Python's `str.strip()`.
- `Pipeline` (`pipeline.dfy`): `run` after option parsing. The normalised lines are fetched
  through a function parameter that stands for `get_tag_data`, ranked, and rendered.

The denominators and the failure case are modelled as the code has them:

- `avg_likes`, `avg_comments`, `likes_per_min` and `engagement_per_min` divide by the number
  of sampled posts (`len(top_posts)`). This count includes posts without likes.
- `avg_views` and `views_per_min` divide by the number of posts that have views.
- A counted post younger than one minute makes `engagement_calculations` raise
  ZeroDivisionError, because `math.floor` of its age in minutes is 0.
  `EngagementCalculations` states this failure in both directions. `Pipeline.Run` shows that
  it aborts the whole run.

## Model

| member | source | states |
|---|---|---|
| Engagement.Present | analysis.py:48-57 | the list comprehension over `is not None` is no longer than the sample, and is empty exactly when no post has that count |
| Engagement.PresentSingle | analysis.py:48-57 | one post contributes its count when it has one, and nothing otherwise |
| Engagement.PresentAppend | analysis.py:48-57 | the present values of two concatenated samples are those of the first followed by those of the second, so the comprehension keeps sample order and multiplicity |
| Engagement.PresentValues | analysis.py:48-57 | every present count is in the comprehension, and everything in it is some post's count |
| Engagement.Weighted | analysis.py:65 | a post's engagement numerator is the larger of its likes and a tenth of its views, and is one of the two |
| Engagement.RateSum | analysis.py:59-66 | a rate sum fails, always with ZeroDivisionError, exactly when some counted post (timestamp plus likes, or views for the views rate) is zero minutes old |
| Engagement.RateSumSingle | analysis.py:59-66 | one post adds nothing when it is not counted, raises ZeroDivisionError when it is counted at age zero, and otherwise adds its numerator (likes, views, or the engagement weight) divided by its age in minutes |
| Engagement.RateSumAppend | analysis.py:59-66 | the rate sum of two concatenated samples succeeds exactly when both parts do, and is then the sum of the two parts |
| Engagement.Mean | analysis.py:48-49 | `total / n if n > 0 else 0`: times n it gives the total, it is 0 for no posts, and it is non-negative for a non-negative total |
| Engagement.TruncatedMean | analysis.py:53-54 | `int(sum / len)` is the floor of the mean: q * n <= sum < (q + 1) * n, and 0 for an empty list |
| Engagement.Ratio | analysis.py:68-70 | the population-to-average ratio times the average gives the post count, and is 0 when the average is not positive |
| Engagement.EngagementCalculations | analysis.py:43-82 | fails exactly when some post is zero minutes old and has likes or views, and then with ZeroDivisionError; an empty sample gives all-zero statistics with the post count; user_amount is the post count (the other fields are stated by Engagement.AggregateFields) |
| Engagement.AggregateFields | analysis.py:48-70 | on success, avg_likes and avg_comments are the means of the present counts over all sampled posts; avg_views is the floor of the mean view count and lies between the smallest and largest view count; the three rate sums succeed, likes_per_min and engagement_per_min times the number of sampled posts give their rate sums, and views_per_min times the number of posts with views gives the views rate sum (each rate is 0 when its denominator is 0); both ratios times their averages give the post count, or are 0 |
| Engagement.TruncatedMeanBetween | analysis.py:53-54 | the truncated mean of a non-empty list lies between its minimum and maximum |
| Engagement.RateSumDominated | analysis.py:59-66 | when every timestamped post is at least a minute old, no rate sum fails, all are non-negative, and the engagement sum is at least the likes sum |
| Engagement.EngagementAtLeastLikesRate | analysis.py:59-66 | when every timestamped post is at least a minute old, the statistics exist, every rate is non-negative, and engagement_per_min >= likes_per_min |
| Engagement.OnePostScenario | analysis.py:43-82 | one 10-minute-old post with 10 likes, 100 views and 2 comments, for a tag of 100 posts, gives likes 10, views 100, comments 2, likes/min 1, views/min 10, ratios 10 and 1, and engagement/min 1 |
| Ranker.ToMap | analysis.py:94-95 | the dict's keys are the table's tags, and with distinct tags each tag looks up its own entry's statistics |
| Ranker.Put | analysis.py:94-95 | `d[k] = v` keeps tags distinct, keeps an existing key in its place or appends a new one, and updates the lookup view at k only |
| Ranker.PutNew | analysis.py:94-95 | a key not yet in the dict is appended as the last item |
| Ranker.AggregateAll | analysis.py:94-95 | the comprehension fails, with ZeroDivisionError, exactly when some tag's statistics fail; otherwise it yields each fetched tag with its statistics, in order |
| Ranker.FromEntries | analysis.py:94-95 | the dict built from the items has distinct keys, exactly the items' tags, and each tag maps to the statistics of its last occurrence |
| Ranker.FromEntriesKeyOrder | analysis.py:94-95 | the dict's keys are the items' tags in order of first occurrence, each once |
| Ranker.FromDistinctEntries | analysis.py:94-95 | without repeated tags the dict holds the items in their original order |
| Ranker.BuildTable | analysis.py:94-95 | building the dict fails, with ZeroDivisionError, exactly when some tag's statistics fail; otherwise its keys are the fetched tags in order of first occurrence, each once, and a tag's value is the statistics of its last fetched item |
| Ranker.TableOfEntries | analysis.py:94-95 | the dict built from the aggregated items has the tags' first-occurrence order as its keys and each tag's last-occurrence statistics as its value |
| Ranker.Insert | analysis.py:97-98 | inserting into a list sorted by (engagement_per_min, user_amount) keeps it sorted and adds exactly that entry |
| Ranker.SortByKey | analysis.py:97-98 | the sorted items are ordered by (engagement_per_min, user_amount) as Python compares tuples, and are a permutation of the dict's items |
| Ranker.SortIsStable | analysis.py:97-98 | items with equal keys keep their dict order |
| Ranker.SortKeys | analysis.py:97-98 | the ranked tags are a permutation of the dict's keys |
| Ranker.RankHashTags | analysis.py:92-100 | fails, with ZeroDivisionError, exactly when some tag's statistics fail; otherwise the returned dict is the one the comprehension builds from the fetched items, the rank list is the tags of its stably sorted items, it is a permutation of the dict's distinct keys, every ranked tag is a key, and looked-up keys ascend along the list |
| Ranker.TieBrokenByPostCount | analysis.py:97-98 | for any two sorted items with equal engagement per minute, the one with the smaller post count comes first |
| Ranker.KeyOrder | analysis.py:97-98 | the tuple comparison of (engagement_per_min, user_amount) is total and transitive, and two keys are each at most the other exactly when both components are equal |
| Report.GenerateOutput | analysis.py:102-108 | succeeds exactly when every ranked tag is in the dict, and otherwise fails with KeyError on the first missing one; on success it gives the header and then, for each ranked tag in order, its row from the dict's statistics |
| Report.SplitJoin | analysis.py:106 | a comma-joined line reads back as its fields when no field holds a comma |
| Report.HeaderFields | analysis.py:103 | the header line reads back as the six column names, starting with "Hashtag" |
| Report.RowReadsBack | analysis.py:106 | a row whose tag and formatted numbers hold no comma reads back as its six fields in column order |
| Report.Row | analysis.py:106 | every row begins with its tag followed by a comma, and is longer than the tag |
| Report.JoinCommas | analysis.py:103-106 | a comma-joined line holds the commas of its fields plus one separator between each two fields |
| Report.CommaInTagAddsFields | analysis.py:106 | a tag holding a comma is not escaped, so its row reads back as more than six fields |
| HashTags.RemoveHashes | analysis.py:88 | `replace("#", "")` leaves no '#', keeps every other character's count, and is the identity on a '#'-free line |
| HashTags.RemoveHashesSingle | analysis.py:88 | one character is dropped if it is '#' and kept otherwise |
| HashTags.RemoveHashesAppend | analysis.py:88 | removing the hashes of two concatenated strings removes them from each part and keeps the parts in order, so the other characters keep their order |
| HashTags.TrimStart | analysis.py:88 | left stripping removes an all-whitespace prefix and leaves a suffix that is empty or starts with a non-whitespace character |
| HashTags.TrimEnd | analysis.py:88 | right stripping removes an all-whitespace suffix and leaves a prefix that is empty or ends with a non-whitespace character |
| HashTags.Strip | analysis.py:88 | `strip()` gives a result no longer than its input with no whitespace at either end |
| HashTags.StripIsTrimmedSlice | analysis.py:88 | `strip()` keeps a contiguous slice of its input and cuts off only whitespace on both sides |
| HashTags.NormalizeTag | analysis.py:88 | a normalised tag has no '#' and no whitespace at either end |
| HashTags.NormalizeTagIsTrimmedSlice | analysis.py:88 | the tag is a contiguous slice of the '#'-free line, and everything cut off around it is whitespace |
| HashTags.NormalizeTagIdempotent | analysis.py:88 | normalising a tag again leaves it unchanged |
| HashTags.GetHashTags | analysis.py:85-89 | one tag per line of the file, in file order, each the normalised line |
| Pipeline.FetchAll | analysis.py:93 | the fetched list has one item per tag, in order, each carrying its tag and the fetch result for it |
| Pipeline.RankFails | analysis.py:92-95 | ranking the fetched tags fails exactly when one tag's statistics fail |
| Pipeline.EntriesFetched | analysis.py:93-95 | the aggregated items are the tags in order, each with the statistics of its fetched data |
| Pipeline.TableFetched | analysis.py:93-95 | the dict's keys are exactly the file's tags, and each key holds the statistics of its fetched data |
| Pipeline.RankedFetched | analysis.py:92-100 | every file tag is ranked, every ranked tag's dict entry holds its fetched statistics, and those ascend along the rank list |
| Pipeline.Run | analysis.py:120-125 | fails, always with ZeroDivisionError, exactly when some line's tag's statistics fail, and never with KeyError; otherwise the report is the header followed by one row per ranked tag, in rank order, showing that tag's statistics; the ranked tags are exactly the file's tags and ascend by (engagement_per_min, user_amount) |

## Left out

- `setup_api`, `get_tag_data` and the InstagramAPI client (login, tag feed, tag search) call the network. `Pipeline.Run` takes the fetch as a function from a tag to its post count and sampled posts. The `print(tag)` in `get_tag_data` is left out.
- `get_tag_data`'s handling of a missing `taken_at` is left out. It passes `None` to `datetime.utcfromtimestamp`, which raises TypeError. `date_time` is therefore never `None` in the source. The model's `ageMinutes: None` covers that case by leaving the post out of the rates, as the `is not None` filter would.
- `PrintableDateTime`, `ticks_to_datetime` and the clock are left out. The age of a post in whole minutes, `floor((utcnow() - taken_at) / 60 s)`, is an input of each post. The source reads the clock again for each post in each of the three rate comprehensions, so one post's age could differ between rates. The model gives each post a single age.
- Floating-point arithmetic is not modelled. Sums, divisions and `int()` of the mean view count are exact, over `real` and `int`. Rounding, overflow to infinity and the order in which floats are summed are not captured.
- `Engagement.Present`: Python accepts any value for a count. The model takes counts to be natural numbers, since the service reports non-negative counts.
- How Python's f-string prints an int or a float is not modelled. `Report.Row` takes the two formatters as parameters. So the model does not capture that an empty sample prints `0` (Python's int 0) for engagement_per_min, avg_likes and avg_comments while a non-empty one prints a float.
- `write_results` (writing the report lines to a file) and reading the hashtag file with `readlines()` are file I/O. `Pipeline.Run` takes the lines and returns the report lines.
- The `click` command-line options of `run` are left out.
- `Pipeline.Run`: the fetch is a function of the tag, so a tag that occurs on several lines gets the same data each time. The source calls `get_tag_data` once per line, and the dict keeps the statistics of the last call. The model of the dict does not depend on this: `Ranker.BuildTable` and `Ranker.FromEntries` take one fetched item per line and state that each key holds the statistics of its last item.
- `Report.Header` is defined as the column names joined with commas. That join is the literal header string of `generate_output`.
