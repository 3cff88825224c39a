# Metal-archives scraper core, in Dafny

A model of the deterministic core of `metal_lyric_data.py`. This is a scraper that pages through the
band and song search endpoints of a metal-music database. It turns each JSON record (a list of
strings, some of them HTML fragments) into a cleaned table row, and it looks up song lyrics.

The model has five modules:

- `Wrappers` (`wrappers.dfy`): `Option` and `Result`.
- `CleanStr` (`clean_str.dfy`): `_clean_str`.
  - For strings, this is `re.sub("\s+", " ", s).strip()`, modelled as `Clean = Strip(Collapse(s))`.
  - Other values pass through unchanged.
  - It also holds an independent reference definition, `Join(Words(s))`, which is
    `" ".join(s.split())`. Cleaning is proved equal to it. Idempotence and the characterisation of
    the fixed points follow from that equality.
- `LyricIds` (`lyric_id.dfy`): `_get_lyric_id`, which is `int(re.findall("\d+", id)[0])`.
  - A missing digit run, where `nums[0]` raises `IndexError`, is `None`.
  - `str(n)` is the inverse used for the round trip.
- `Pagination` (`pagination.dfy`): `_pull_json_data`, an imperative loop over requested offsets.
  - It is proved against `Gather` of `RequestedOffsets`.
  - The offsets are characterised with and without `record_limit`.
  - An honest server (`Serves`) pages a fixed record list `db`. A full pull returns exactly `db`; a
    limited pull returns a whole-page prefix of it.
- `Records` (`records.dfy`): `_parse_artist_genre`, `_parse_song`, the per-record list
  comprehensions of `get_artist_genre_table` and `get_song_table`, and the `(lyrics not available)`
  sentinel of `_get_lyrics`.
  - An exception in the source (an `IndexError` on a short record or on a digit-free anchor id) is
    an `Err` carrying a `Fault`.

The network and HTML parsing are parameters:

- `fetch(i, n)` is the decoded JSON page at display start `i` with display length `n`.
- `Html` holds the three BeautifulSoup extractions, as total functions.
- `pageText(id)` is the text of a lyrics page.

## Model

| member | source | states |
|---|---|---|
| CleanStr.CleanCell | metal_lyric_data.py:72-80 | A string comes back as a string, anything else comes back unchanged. The cleaned string is `Clean` of the input, is normalised, and keeps every non-whitespace character of the input, in order. |
| CleanStr.TrimLeftIsSuffix | metal_lyric_data.py:80 | The left half of `strip()` removes only a prefix. The function's own contract says the result does not start with whitespace. |
| CleanStr.TrimRightIsPrefix | metal_lyric_data.py:80 | The right half of `strip()` removes only a suffix. The function's own contract says the result does not end with whitespace. |
| CleanStr.CleanNormalized | metal_lyric_data.py:79-80 | The result has no whitespace at either end, no whitespace other than a plain space, and never two spaces in a row. |
| CleanStr.CleanKeepsNonSpace | metal_lyric_data.py:79-80 | Deleting whitespace from the result gives the same string as deleting it from the input: no other character is lost, added or reordered. |
| CleanStr.CleanFixedPoints | metal_lyric_data.py:79-80 | `Clean(s) == s` if and only if `s` is already normalised. |
| CleanStr.WordsAreWords | metal_lyric_data.py:79-80 | Every element of `s.split()` is non-empty and free of whitespace. |
| CleanStr.CleanIsJoinWords | metal_lyric_data.py:79-80 | The substitute-then-strip result equals the independent definition `" ".join(s.split())`. |
| CleanStr.WordsOfJoin | metal_lyric_data.py:79-80 | `" ".join(ws).split() == ws` for any list of words. This is the inverse used for idempotence. |
| CleanStr.CleanIdempotent | metal_lyric_data.py:72-80 | Cleaning twice equals cleaning once. |
| CleanStr.CleanEqualIffSameWords | metal_lyric_data.py:79-80 | Two strings clean to the same result if and only if they have the same words in the same order. |
| CleanStr.CleanCellIdempotent | metal_lyric_data.py:76-80 | `_clean_str` is idempotent on every value, including the integer lyric id and `None`. |
| LyricIds.DigitPrefix | metal_lyric_data.py:68 | Returns the maximal run of digits at the front of a string: a prefix, all digits, followed by a non-digit or the end. |
| LyricIds.FirstDigitRunNone | metal_lyric_data.py:68-69 | `re.findall` finds no run if and only if the string holds no digit. |
| LyricIds.FirstDigitRunDigits | metal_lyric_data.py:68 | A run that is found is non-empty and made of digits. |
| LyricIds.LyricId | metal_lyric_data.py:63-69 | Extraction fails (the `IndexError` of `nums[0]`) if and only if the anchor id holds no digit. |
| LyricIds.LyricIdOfRun | metal_lyric_data.py:68-69 | For a digit-free prefix, a digit run, then a non-digit or the end, the id is the decimal value of that first maximal run. |
| LyricIds.Decimal | metal_lyric_data.py:69 | `str(n)` is a non-empty numeral without a leading zero. It is the partner of `int()`. |
| LyricIds.DecimalRoundTrip | metal_lyric_data.py:69 | `int(str(n)) == n`. |
| LyricIds.LyricIdRoundTrip | metal_lyric_data.py:63-69 | A number written into an anchor id after a digit-free prefix is read back exactly. |
| Pagination.PullJsonData | metal_lyric_data.py:105-132 | Returns the concatenation of the pages at the requested offsets, in request order. The ghost output shows the offsets requested are exactly `RequestedOffsets`. |
| Pagination.GatherAppend | metal_lyric_data.py:127-131 | Requesting one more page appends that page's records at the end. |
| Pagination.RangeMembers | metal_lyric_data.py:116 | `range(start, stop, step)` holds exactly the numbers in `[start, stop)` congruent to `start` modulo `step`. |
| Pagination.RangeIncreasing | metal_lyric_data.py:116 | `range(start, stop, step)` is strictly increasing and no element is below `start`. |
| Pagination.OffsetsWithLimit | metal_lyric_data.py:115-116 | With `record_limit`, the offsets are exactly the multiples of `step` in `[0, record_limit)`, each once, in increasing order. |
| Pagination.OffsetsWithoutLimit | metal_lyric_data.py:118-124 | Without `record_limit`, the first offset is 0. The rest are exactly the multiples of `step` in `[step, max_records)`, strictly increasing, where `max_records` is what page 0 reports. |
| Pagination.RangeCount | metal_lyric_data.py:124 | The pages of `range(start, stop, step)` reach `stop`, and the last one starts before it. |
| Pagination.GatherRange | metal_lyric_data.py:127-131 | Against an honest server, the pages of a range concatenate to one contiguous window of the records. |
| Pagination.PullWithoutLimitGathersAll | metal_lyric_data.py:118-131 | Against an honest server, a pull without a limit returns every record exactly once, in order. |
| Pagination.PullWithLimitGathersPrefix | metal_lyric_data.py:115-131 | Against an honest server, a limited pull returns a prefix of the records: empty for a limit of at most 0; otherwise at least `min(record_limit, total)` records and fewer than `record_limit + step`. |
| Records.CleanRow | metal_lyric_data.py:89 | `[_clean_str(x) for x in output]` keeps the length, cleans each element in place, and gives a clean row. |
| Records.ParseArtistGenre | metal_lyric_data.py:83-89 | Fails with an `IndexError` at index `len(data)` if and only if the record has fewer than 3 fields. Otherwise it returns a clean 3-cell row: the cleaned link text of field 0 (the artist), then the cleaned fields 1 and 2 (genre, country). |
| Records.SongRow | metal_lyric_data.py:96-102 | Builds a clean 5-cell row: the cleaned contents of field 0 (band), the cleaned link text of field 1 (album), the cleaned fields 2 and 3 (type, title), and the lyric id, left unchanged. |
| Records.ParseSong | metal_lyric_data.py:92-102 | Fails if and only if the record has fewer than 5 fields (`IndexError` at `len(data)`) or its anchor id holds no digit. Otherwise it returns a clean 5-cell row: cleaned band contents, cleaned album link text, cleaned type and title, and the lyric id read from field 4. |
| Records.Table | metal_lyric_data.py:157 | The list comprehension succeeds if and only if every record parses. It then holds one row per record, in order. A failure carries the fault of the first failing record. |
| Records.ArtistGenreTable | metal_lyric_data.py:156-157 | Succeeds if and only if every record has at least 3 fields. It then gives one clean 3-cell row per record. |
| Records.SongTable | metal_lyric_data.py:173-174 | Succeeds if and only if every record has at least 5 fields and a digit in its anchor id. It then gives one clean 5-cell row per record. |
| Records.GetArtistGenreTable | metal_lyric_data.py:148-162 | Returns the artist table of exactly the records `_pull_json_data` gathers from the band search. |
| Records.GetSongTable | metal_lyric_data.py:165-177 | Returns the song table of exactly the records `_pull_json_data` gathers from the song search. |
| Records.TablesCoverServer | metal_lyric_data.py:153-157 | Against an honest server, a successful full table has one row per record the server holds, which is the total it reports. |
| Records.SentinelByWords | metal_lyric_data.py:142-145 | Cleaned text equals `(lyrics not available)` if and only if its words are `(lyrics`, `not`, `available)`, however it is spaced or broken across lines. |
| Records.LyricsOrNone | metal_lyric_data.py:142-145 | Returns `None` if and only if the text is the notice. Any other result is normalised and keeps the text's non-whitespace characters. |
| Records.GetLyrics | metal_lyric_data.py:135-145 | Returns `None` if and only if the lyrics page holds the notice. Otherwise it returns the cleaned page text. |

## Left out

- `_read_json` (lines 37-44), the URL formatting of the requests, and the HTTP fetch in `_get_lyrics` (lines 139-140): these are network I/O and JSON decoding. They are the `fetch` and `pageText` parameters. HTTP errors and malformed JSON are not modelled.
- The `KeyError` for a page missing `iTotalRecords` or `aaData`: every page in the model has both. The `max_record_field` and `data_field` parameters are fixed accordingly.
- The random user-agent choice (line 42): randomness with no effect on the data.
- `time.sleep` (lines 123 and 130): timing only. The `sleep` parameter of `_pull_json_data` is unused by the source as well.
- BeautifulSoup parsing (`_get_link_text`, `_get_contents`, the anchor `id` lookup, `soup.text`) is modelled by total functions in `Html` and by `pageText`. The exceptions these raise on a fragment without an anchor, or an anchor without an `id`, are not modelled.
- pandas: the `DataFrame` construction and column names (lines 156, 160, 173, 175). The tables are sequences of rows.
- Python 2 string types: whitespace is the ASCII set that `\s` and `strip()` agree on for byte strings. On unicode text `strip()` also removes non-ASCII whitespace, which `\s` without `re.UNICODE` does not match. That difference is not modelled.
- Record fields are modelled as strings. A JSON field of another type would reach `_clean_str` unchanged, but the plain fields are always cleaned as text here: fields 1 and 2 (genre, country) of an artist row and fields 2 and 3 (type, title) of a song row.
- Pagination.PullJsonData: requires `step > 0`. Python's `range` also accepts a negative step, and raises `ValueError` for a step of 0. Every caller passes `STEP = 200`.
- A limited pull fetches whole pages. `Pagination.PullWithLimitGathersPrefix` states the resulting bound of fewer than `record_limit + step` records, not a cut at exactly `record_limit`.
