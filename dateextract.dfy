/**
 * The date-range extractor (json_tools/aw_date_extractor.py): the events of
 * one bucket export whose date lies in `[start, end]` are written, when there
 * are any, to a new single-bucket export named after the input file and the
 * range. Reading and writing files is not part of this model: the loaded
 * bucket metadata and events come in as parameters and the document to be
 * written comes out as a value.
 */
module DateExtractor {
  import opened Wrappers
  import opened Events
  import opened Dates
  import DateFilter

  /** The fields `load_activitywatch_data` copies out of the first bucket (`''` when absent). */
  datatype Metadata = Metadata(bucketId: string, bucketType: string, client: string, hostname: string, created: string)

  /** `s.rfind(c)`: the last position of `c` in `s`, or -1. */
  function RFind(s: string, c: char): (r: int)
    ensures -1 <= r < |s|
    ensures r >= 0 ==> s[r] == c
    ensures forall k :: r < k < |s| ==> s[k] != c
  {
    if s == [] then -1
    else if s[|s| - 1] == c then |s| - 1
    else RFind(s[..|s| - 1], c)
  }

  /** `Path(p).name`: what follows the last slash. */
  function BaseName(p: string): (r: string)
    ensures '/' !in r
    ensures |r| <= |p| && r == p[|p| - |r|..]
  {
    var i := RFind(p, '/');
    p[i + 1..]
  }

  /** `Path(p).stem`: the name without its last suffix, where a dot in first or last place starts no suffix. */
  function Stem(p: string): string
  {
    var name := BaseName(p);
    var i := RFind(name, '.');
    if 0 < i < |name| - 1 then name[..i] else name
  }

  /** The stem is the file's name, or the part of it before the last dot, which leaves a suffix of at least one character. */
  lemma StemOfName(p: string)
    ensures var name, stem := BaseName(p), Stem(p);
      && '/' !in stem
      && |stem| <= |name| && stem == name[..|stem|]
      && (stem != name ==> 0 < |stem| < |name| - 1 && name[|stem|] == '.' && '.' !in name[|stem| + 1..])
  {
    var name := BaseName(p);
    var stem := Stem(p);
    assert forall c :: c in stem ==> c in name;
    if stem != name {
      var i := RFind(name, '.');
      assert '.' !in name[i + 1..];
    }
  }

  /** The documented invocation's name: `data/aw-watcher-web.json` has stem `aw-watcher-web`. */
  lemma StemExample()
    ensures Stem("data/aw-watcher-web.json") == "aw-watcher-web"
  {
    assert "data/aw-watcher-web.json" == "data" + ['/'] + "aw-watcher-web" + ['.'] + "json";
    StemOfPath("data", "aw-watcher-web", "json");
  }

  /** `dir/base.ext`, with one suffix after a non-empty base, has stem `base`. */
  lemma StemOfPath(dir: string, base: string, ext: string)
    requires base != [] && ext != []
    requires '/' !in base && '/' !in ext && '.' !in ext
    ensures Stem(dir + ['/'] + base + ['.'] + ext) == base
  {
    var name := base + ['.'] + ext;
    assert dir + ['/'] + base + ['.'] + ext == dir + ['/'] + name;
    assert '/' !in name;
    RFindLast(dir, '/', name);
    RFindLast(base, '.', ext);
  }

  /** The last `c` of `a + [c] + b`, where `b` holds no `c`, is the one after `a`. */
  lemma {:induction false} RFindLast(a: string, c: char, b: string)
    requires c !in b
    ensures RFind(a + [c] + b, c) == |a|
    decreases |b|
  {
    var s := a + [c] + b;
    if b == [] {
      assert s[|s| - 1] == c;
    } else {
      assert s[|s| - 1] == b[|b| - 1] != c;
      assert s[..|s| - 1] == a + [c] + b[..|b| - 1];
      RFindLast(a, c, b[..|b| - 1]);
    }
  }

  /** Only the last suffix goes: `archive.tar.gz` has stem `archive.tar`. */
  lemma StemLastSuffixExample()
    ensures Stem("archive.tar.gz") == "archive.tar"
  {
    var p := "archive.tar.gz";
    assert '/' !in p;
    assert RFind(p, '/') == -1;
    assert p[11] == '.' && '.' !in p[12..];
    assert RFind(p, '.') == 11;
  }

  /** A leading dot starts no suffix: `.hidden` is its own stem. */
  lemma StemHiddenExample()
    ensures Stem(".hidden") == ".hidden"
  {
    assert '/' !in ".hidden";
    assert RFind(".hidden", '/') == -1;
    assert ".hidden"[0] == '.' && '.' !in ".hidden"[1..];
    assert RFind(".hidden", '.') == 0;
  }

  const OutputPrefix: string := "output/filtered_"

  /** `f"output/filtered_{input_path.stem}_{start_date}_{end_date}.json"`. */
  function OutputFilename(filename: string, start: Date, end: Date): (r: string)
    requires ValidDate(start) && ValidDate(end)
    ensures |r| == |OutputPrefix| + |Stem(filename)| + 27
  {
    OutputPrefix + Stem(filename) + "_" + IsoDate(start) + "_" + IsoDate(end) + ".json"
  }

  /** The name is the prefix, the input's stem, the two ISO dates and `.json`, in that order. */
  lemma OutputFilenameLayout(filename: string, start: Date, end: Date)
    requires ValidDate(start) && ValidDate(end)
    ensures var r := OutputFilename(filename, start, end);
      && r[..|OutputPrefix|] == OutputPrefix && r[|r| - 5..] == ".json"
      && r[|OutputPrefix|..|OutputPrefix| + |Stem(filename)|] == Stem(filename)
      && r[|r| - 26..|r| - 16] == IsoDate(start) && r[|r| - 15..|r| - 5] == IsoDate(end)
  {
    var r := OutputFilename(filename, start, end);
    var stem, from, to := Stem(filename), IsoDate(start), IsoDate(end);
    var tail := "_" + from + "_" + to + ".json";
    assert r == OutputPrefix + stem + tail;
    assert r[|OutputPrefix|..] == stem + tail;
    assert r[|r| - 26..] == tail[1..];
    assert tail[1..] == from + "_" + to + ".json";
    assert r[|r| - 15..] == to + ".json";
  }

  /** The range can be read back off the default output name. */
  lemma OutputFilenameRange(filename: string, start: Date, end: Date, lenient: Lenient)
    requires ValidDate(start) && ValidDate(end)
    ensures var r := OutputFilename(filename, start, end);
      ParseDate(Some(r[|r| - 26..|r| - 16]), lenient) == Some(start) && ParseDate(Some(r[|r| - 15..|r| - 5]), lenient) == Some(end)
  {
    OutputFilenameLayout(filename, start, end);
    ParseIsoDate(start, lenient);
    ParseIsoDate(end, lenient);
  }

  /** The fields of the one output bucket. */
  function BucketFields(md: Metadata): map<string, Json>
  {
    map[
      "id" := JStr(md.bucketId),
      "created" := JStr(md.created),
      "name" := JNull,
      "type" := JStr(md.bucketType),
      "client" := JStr(md.client),
      "hostname" := JStr(md.hostname),
      "data" := JObj(map[])]
  }

  /** The `extraction_info` object; `extractedAt` is `datetime.now().isoformat()`. */
  function ExtractionInfo(count: nat, start: Date, end: Date, extractedAt: string): Json
    requires ValidDate(start) && ValidDate(end)
  {
    JObj(map[
      "original_total_events" := JNum(count as real),
      "date_range" := JObj(map["start" := JStr(IsoDate(start)), "end" := JStr(IsoDate(end))]),
      "extracted_at" := JStr(extractedAt)])
  }

  /**
   * The document `save_filtered_data` writes: one bucket, keyed by the
   * bucket id, holding the filtered events, and `extraction_info`, whose
   * `original_total_events` is the number of events written.
   */
  function OutputDocument(events: seq<Event>, md: Metadata, start: Date, end: Date, extractedAt: string): (r: Doc)
    requires ValidDate(start) && ValidDate(end)
    ensures r.Object? && r.events.None? && r.envelope.None? && r.buckets.Some?
    ensures |r.buckets.value| == 1 && r.buckets.value[0].name == md.bucketId
    ensures r.buckets.value[0].bucket.events == Some(events)
    ensures var fields := r.buckets.value[0].bucket.fields;
      "id" in fields && fields["id"] == JStr(md.bucketId) && "name" in fields && fields["name"] == JNull
    ensures r.fields.Keys == {"extraction_info"}
    ensures var info := r.fields["extraction_info"];
      info.JObj? && "original_total_events" in info.fields && info.fields["original_total_events"] == JNum(|events| as real)
  {
    var fields := BucketFields(md);
    Object(None, Some([Named(md.bucketId, Bucket(Some(events), fields))]), None,
           map["extraction_info" := ExtractionInfo(|events|, start, end, extractedAt)])
  }

  /** The filtering part of `extract_date_range_data`: nothing when the file did not load. */
  method ExtractDateRangeData(md: Option<Metadata>, allEvents: seq<Event>, start: Date, end: Date, lenient: Lenient)
    returns (filtered: seq<Event>)
    ensures md.None? ==> filtered == []
    ensures md.Some? ==> filtered == DateFilter.EventsInRange(allEvents, start, end, lenient)
  {
    if md.None? {
      return [];
    }
    filtered := DateFilter.FilterEventsByDate(allEvents, start, end, lenient);
  }

  /**
   * `process_single_file`: false, with nothing saved, when the file did not
   * load or no event lies in the range; otherwise true, with the output
   * document saved under the given name or the default one.
   */
  method ProcessSingleFile(filename: string, md: Option<Metadata>, allEvents: seq<Event>, start: Date, end: Date,
                           output: Option<string>, lenient: Lenient, extractedAt: string)
    returns (success: bool, saved: Option<(string, Doc)>)
    requires ValidDate(start) && ValidDate(end)
    ensures success <==> saved.Some?
    ensures success <==> md.Some? && DateFilter.EventsInRange(allEvents, start, end, lenient) != []
    ensures success ==>
      var filtered := DateFilter.EventsInRange(allEvents, start, end, lenient);
      && saved.value.0 == (if output.Some? then output.value else OutputFilename(filename, start, end))
      && saved.value.1 == OutputDocument(filtered, md.value, start, end, extractedAt)
  {
    if md.None? {
      return false, None;
    }
    var filtered := DateFilter.FilterEventsByDate(allEvents, start, end, lenient);
    if filtered == [] {
      return false, None;
    }
    var name := if output.Some? then output.value else OutputFilename(filename, start, end);
    return true, Some((name, OutputDocument(filtered, md.value, start, end, extractedAt)));
  }
}
