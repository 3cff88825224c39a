/** Turning pulled search records into table rows (`_parse_artist_genre`,
    `_parse_song`, the list comprehensions of `get_artist_genre_table` and
    `get_song_table`) and the lyrics lookup (`_get_lyrics`). */
module Records {
  import opened Wrappers
  import opened CleanStr
  import opened LyricIds
  import opened Pagination

  /** One search record as the endpoint returns it: a list of strings, some
      of them HTML fragments. */
  type Record = seq<string>

  /** One table row: a list of cleaned cells. */
  type Row = seq<Cell>

  /** The HTML extraction the scraper delegates to BeautifulSoup, kept
      abstract: `linkText` is `_get_link_text` (the string of the fragment's
      first anchor, or `None`), `contents` is `_get_contents` (the fragment's
      single string, or `None`), and `anchorId` is the `id` attribute of the
      fragment's first anchor. */
  datatype Html = Html(linkText: string -> Cell, contents: string -> Cell, anchorId: string -> string)

  /** Why a record cannot become a row: `record[index]` raised `IndexError`
      because the record is too short, or the anchor id held no digit, so
      `nums[0]` raised `IndexError`. */
  datatype Fault = MissingField(index: nat) | NoLyricId

  /** Page length of both search endpoints (`STEP`). */
  const Step := 200

  /** A cell as `_clean_str` leaves it. */
  predicate IsCleanCell(c: Cell) {
    c.Text? ==> IsNormalized(c.text)
  }

  predicate IsCleanRow(row: Row) {
    forall i :: 0 <= i < |row| ==> IsCleanCell(row[i])
  }

  /** `[_clean_str(x) for x in output]` */
  function CleanRow(output: seq<Cell>): (row: Row)
    ensures |row| == |output| && IsCleanRow(row)
    ensures forall i :: 0 <= i < |output| ==> row[i] == CleanCell(output[i])
  {
    seq(|output|, i requires 0 <= i < |output| => CleanCell(output[i]))
  }

  /** `_parse_artist_genre`: the artist (the link text of field 0), the genre
      (field 1) and the country (field 2), each cleaned. */
  function ParseArtistGenre(html: Html, data: Record): (r: Result<Row, Fault>)
    ensures r.Err? <==> |data| < 3
    ensures r.Err? ==> r.error == MissingField(|data|)
    ensures r.Ok? ==> |r.value| == 3 && IsCleanRow(r.value)
    ensures r.Ok? ==> && r.value[0] == CleanCell(html.linkText(data[0]))
                      && r.value[1] == Text(Clean(data[1])) && r.value[2] == Text(Clean(data[2]))
  {
    if |data| < 3 then Err(MissingField(|data|))
    else
      var output := [html.linkText(data[0]), Text(data[1]), Text(data[2])];
      Ok(CleanRow(output))
  }

  /** `_parse_song`: the band (contents of field 0), the album (link text of
      field 1), the album type (field 2), the song title (field 3), each
      cleaned, and the lyric id read from field 4, which cleaning leaves as
      it is. */
  function ParseSong(html: Html, data: Record): (r: Result<Row, Fault>)
    ensures r.Err? <==> |data| < 5 || NoDigits(html.anchorId(data[4]))
    ensures r.Err? ==> r.error == if |data| < 5 then MissingField(|data|) else NoLyricId
    ensures r.Ok? ==> |r.value| == 5 && IsCleanRow(r.value)
    ensures r.Ok? ==> && r.value[0] == CleanCell(html.contents(data[0]))
                      && r.value[1] == CleanCell(html.linkText(data[1]))
                      && r.value[2] == Text(Clean(data[2]))
                      && r.value[3] == Text(Clean(data[3]))
                      && r.value[4] == Number(LyricId(html.anchorId(data[4])).value)
  {
    if |data| < 5 then Err(MissingField(|data|))
    else match LyricId(html.anchorId(data[4]))
      case None => Err(NoLyricId)
      case Some(lyricId) => Ok(SongRow(html, data, lyricId))
  }

  /** The cleaned song row of a record whose lyric id has been read. */
  function SongRow(html: Html, data: Record, lyricId: nat): (row: Row)
    requires |data| >= 5
    ensures |row| == 5 && IsCleanRow(row)
    ensures row[0] == CleanCell(html.contents(data[0])) && row[1] == CleanCell(html.linkText(data[1]))
    ensures row[2] == Text(Clean(data[2])) && row[3] == Text(Clean(data[3])) && row[4] == Number(lyricId)
  {
    var output := [html.contents(data[0]), html.linkText(data[1]), Text(data[2]), Text(data[3]), Number(lyricId)];
    CleanRow(output)
  }

  /** `[parse(x) for x in records]`: one row per record, in order, or the
      fault of the first record that has none. */
  function Table(parse: Record -> Result<Row, Fault>, records: seq<Record>): (r: Result<seq<Row>, Fault>)
    ensures r.Ok? <==> forall i :: 0 <= i < |records| ==> parse(records[i]).Ok?
    ensures r.Ok? ==> |r.value| == |records|
    ensures r.Ok? ==> forall i :: 0 <= i < |records| ==> r.value[i] == parse(records[i]).value
    ensures r.Err? ==> exists i :: 0 <= i < |records| && parse(records[i]) == Err(r.error)
                                   && forall j :: 0 <= j < i ==> parse(records[j]).Ok?
  {
    if records == [] then Ok([])
    else match parse(records[0])
      case Err(e) => Err(e)
      case Ok(row) =>
        match Table(parse, records[1..])
        case Err(e) =>
          ghost var i :| 0 <= i < |records| - 1 && parse(records[1..][i]) == Err(e)
                         && forall j :: 0 <= j < i ==> parse(records[1..][j]).Ok?;
          assert parse(records[i + 1]) == Err(e);
          assert forall j :: 0 <= j < i + 1 ==> parse(records[j]).Ok? by {
            forall j | 0 <= j < i + 1 ensures parse(records[j]).Ok? {
              if j > 0 {
                assert records[j] == records[1..][j - 1];
              }
            }
          }
          Err(e)
        case Ok(rows) =>
          assert forall i :: 1 <= i < |records| ==> records[i] == records[1..][i - 1];
          Ok([row] + rows)
  }

  /** The rows of `get_artist_genre_table` before they become a data frame. */
  function ArtistGenreTable(html: Html, records: seq<Record>): (r: Result<seq<Row>, Fault>)
    ensures r.Ok? <==> forall i :: 0 <= i < |records| ==> |records[i]| >= 3
    ensures r.Ok? ==> |r.value| == |records|
    ensures r.Ok? ==> forall i :: 0 <= i < |records| ==> |r.value[i]| == 3 && IsCleanRow(r.value[i])
  {
    Table(data => ParseArtistGenre(html, data), records)
  }

  /** The rows of `get_song_table` before they become a data frame. */
  function SongTable(html: Html, records: seq<Record>): (r: Result<seq<Row>, Fault>)
    ensures r.Ok? <==> forall i :: 0 <= i < |records| ==>
                         |records[i]| >= 5 && !NoDigits(html.anchorId(records[i][4]))
    ensures r.Ok? ==> |r.value| == |records|
    ensures r.Ok? ==> forall i :: 0 <= i < |records| ==> |r.value[i]| == 5 && IsCleanRow(r.value[i])
  {
    Table(data => ParseSong(html, data), records)
  }

  /** `get_artist_genre_table` without the data frame: pull every page of
      the band search and turn each record into an artist row. */
  method GetArtistGenreTable(fetch: (int, int) -> Page<Record>, html: Html, recordLimit: Option<int>)
    returns (table: Result<seq<Row>, Fault>)
    ensures table == ArtistGenreTable(html, Gather(fetch, Step, RequestedOffsets(fetch, Step, recordLimit)))
  {
    var allData;
    ghost var requested;
    allData, requested := PullJsonData(fetch, Step, recordLimit);
    table := ArtistGenreTable(html, allData);
  }

  /** `get_song_table` without the data frame: pull every page of the song
      search and turn each record into a song row. */
  method GetSongTable(fetch: (int, int) -> Page<Record>, html: Html, recordLimit: Option<int>)
    returns (table: Result<seq<Row>, Fault>)
    ensures table == SongTable(html, Gather(fetch, Step, RequestedOffsets(fetch, Step, recordLimit)))
  {
    var allData;
    ghost var requested;
    allData, requested := PullJsonData(fetch, Step, recordLimit);
    table := SongTable(html, allData);
  }

  /** Against a server that pages the records `db`, a complete pull yields a
      table with one row per record the server reports. */
  lemma {:induction false} TablesCoverServer(fetch: (int, int) -> Page<Record>, html: Html, db: seq<Record>)
    requires Serves(fetch, db, Step)
    ensures var artists := ArtistGenreTable(html, Gather(fetch, Step, RequestedOffsets(fetch, Step, None)));
      artists.Ok? ==> |artists.value| == |db| == fetch(0, Step).totalRecords
    ensures var songs := SongTable(html, Gather(fetch, Step, RequestedOffsets(fetch, Step, None)));
      songs.Ok? ==> |songs.value| == |db| == fetch(0, Step).totalRecords
  {
    PullWithoutLimitGathersAll(fetch, db, Step);
    ServedPage(fetch, db, Step, 0);
  }

  // ---------------------------------------------------------------------
  // Lyrics

  /** The text the lyrics page shows when a song has none. */
  const LyricsNotAvailable := "(lyrics not available)"

  /** The words of that text. */
  const LyricsNotAvailableWords := ["(lyrics", "not", "available)"]

  /** The sentinel check of `_get_lyrics`: the cleaned text, or `None` when
      it is the not-available notice. */
  function LyricsOrNone(text: string): (r: Option<string>)
    ensures r.None? <==> Words(text) == LyricsNotAvailableWords
    ensures r.Some? ==> IsNormalized(r.value) && NonSpace(r.value) == NonSpace(text)
  {
    SentinelByWords(text);
    CleanNormalized(text);
    CleanKeepsNonSpace(text);
    var lyrics := Clean(text);
    if lyrics == LyricsNotAvailable then None else Some(lyrics)
  }

  /** `_get_lyrics`: `pageText(id)` stands for fetching the lyrics page of
      song `id` and taking its text. */
  function GetLyrics(pageText: int -> string, lyricId: int): (r: Option<string>)
    ensures r.None? <==> Words(pageText(lyricId)) == LyricsNotAvailableWords
    ensures r.Some? ==> r.value == Clean(pageText(lyricId))
  {
    LyricsOrNone(pageText(lyricId))
  }

  lemma {:induction false} SentinelWords()
    ensures AllWords(LyricsNotAvailableWords)
  {
    var ws := LyricsNotAvailableWords;
    assert IsWord(ws[0]) && IsWord(ws[1]) && IsWord(ws[2]);
  }

  lemma {:induction false} SentinelJoin()
    ensures Join(LyricsNotAvailableWords) == LyricsNotAvailable
  {
  }

  /** Text is the not-available notice, after cleaning, exactly when its
      words are the notice's words, however it is spaced or broken across
      lines. */
  lemma {:induction false} SentinelByWords(text: string)
    ensures Clean(text) == LyricsNotAvailable <==> Words(text) == LyricsNotAvailableWords
  {
    SentinelWords();
    SentinelJoin();
    CleanIsJoinWords(text);
    WordsAreWords(text);
    WordsOfJoin(Words(text));
    WordsOfJoin(LyricsNotAvailableWords);
  }
}
