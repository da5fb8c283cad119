/** The enrichment backfill: for every queued S3 object key it recognises the
    celebrities and the text in the image and stores both lists on the post's item
    in the `funny-reddit-posts` table, keyed by the submission id taken from the
    object key. */
module RecognitionBackfill {
  import opened Common
  import opened PyStr
  import opened PyJson

  const RecordsKey := "Records"
  const BodyKey := "body"
  const BucketName := "your-bucket-name"
  const IdAttribute := "submissionId"
  const CelebritiesAttribute := "celebrityRekognition"
  const TextsAttribute := "textRekognition"

  /** A DynamoDB attribute value: a string or a list of strings (other kinds are
      kept as they are and never written here). */
  datatype Attribute = AttrString(s: string) | AttrList(items: seq<string>) | AttrOther(tag: string)

  type Item = map<string, Attribute>

  /** Rekognition: the celebrity names and the detected texts of an S3 object, in
      response order. */
  datatype Recognizer = Recognizer(
    celebrities: (string, string) -> Result<seq<string>, Exception>,
    texts: (string, string) -> Result<seq<string>, Exception>)

  /** One `update_item` call. */
  datatype Update = Update(id: string, celebrities: seq<string>, texts: seq<string>)

  /** `extract_submission_id(object_key)`: the last `/`-separated segment, cut
      before its first `.`. */
  function ExtractSubmissionId(key: string): (r: string)
    ensures '/' !in r && '.' !in r
  {
    var filename := Last(Split(key, '/'));
    var id := Split(filename, '.')[0];
    assert '/' !in filename;
    FirstFieldIsPrefix(filename, '.');
    assert forall i :: 0 <= i < |id| ==> id[i] == filename[i];
    id
  }

  /** `event['Records']`, iterated: a list gives its elements; an empty string or
      dictionary gives none, and a non-empty one gives strings, whose `['body']` is
      a TypeError; anything else is not iterable. */
  function Records(event: JsonValue): (r: Result<seq<JsonValue>, Exception>)
    ensures event.JObject? && RecordsKey in event.fields && event.fields[RecordsKey].JArray?
      ==> r == Ok(event.fields[RecordsKey].items)
    ensures event.JObject? && RecordsKey !in event.fields ==> r == Err(MissingKey(RecordsKey))
  {
    match Subscript(event, RecordsKey)
    case Err(e) => Err(e)
    case Ok(v) =>
      match v
      case JArray(items) => Ok(items)
      case JString(s) => if s == "" then Ok([]) else Ok([JString([s[0]])])
      case JObject(fields) => if fields == map[] then Ok([]) else Err(TypeError("string indices must be integers, not 'str'"))
      case _ => Err(TypeError("'" + TypeName(v) + "' object is not iterable"))
  }

  /** `record['body']`, which must be a string for `split` to exist. */
  function ObjectKey(record: JsonValue): (r: Result<string, Exception>)
    ensures r.Ok? <==> record.JObject? && BodyKey in record.fields && record.fields[BodyKey].JString?
    ensures r.Ok? ==> r.value == record.fields[BodyKey].s
    ensures record.JObject? && BodyKey !in record.fields ==> r == Err(MissingKey(BodyKey))
  {
    match Subscript(record, BodyKey)
    case Err(e) => Err(e)
    case Ok(v) =>
      if v.JString? then Ok(v.s)
      else Err(AttributeError("'" + TypeName(v) + "' object has no attribute 'split'"))
  }

  /** One iteration of the loop up to the update: the key, the id, and the two
      recognition calls. */
  function RecordUpdate(record: JsonValue, rek: Recognizer): (r: Result<Update, Exception>)
    ensures r.Ok? ==>
      && ObjectKey(record).Ok? && r.value.id == ExtractSubmissionId(ObjectKey(record).value)
      && Ok(r.value.celebrities) == rek.celebrities(BucketName, ObjectKey(record).value)
      && Ok(r.value.texts) == rek.texts(BucketName, ObjectKey(record).value)
  {
    match ObjectKey(record)
    case Err(e) => Err(e)
    case Ok(key) =>
      var id := ExtractSubmissionId(key);
      match rek.celebrities(BucketName, key)
      case Err(e) => Err(e)
      case Ok(celebrities) =>
        match rek.texts(BucketName, key)
        case Err(e) => Err(e)
        case Ok(texts) => Ok(Update(id, celebrities, texts))
  }

  /** The table after `update_item` with `SET celebrityRekognition = :celebrities,
      textRekognition = :texts`: the item is created with its key when absent. */
  function Updated(items: map<string, Item>, u: Update): (r: map<string, Item>)
    ensures r.Keys == items.Keys + {u.id}
  {
    var item := if u.id in items then items[u.id] else map[IdAttribute := AttrString(u.id)];
    items[u.id := item[CelebritiesAttribute := AttrList(u.celebrities)][TextsAttribute := AttrList(u.texts)]]
  }

  /** The outcome of the loop: the table, the updates made in order, and the
      exception that ended it early, if any. */
  datatype Outcome = Outcome(items: map<string, Item>, updates: seq<Update>, error: Option<Exception>)

  /** The loop over the records, from the given table. */
  function Run(items: map<string, Item>, records: seq<JsonValue>, rek: Recognizer): (r: Outcome)
    ensures |r.updates| <= |records|
    decreases |records|
  {
    if records == [] then Outcome(items, [], None)
    else
      match RecordUpdate(records[0], rek)
      case Err(e) => Outcome(items, [], Some(e))
      case Ok(u) =>
        var rest := Run(Updated(items, u), records[1..], rek);
        Outcome(rest.items, [u] + rest.updates, rest.error)
  }

  /** `lambda_handler(event, context)` */
  function Handler(items: map<string, Item>, event: JsonValue, rek: Recognizer): (r: Outcome)
    ensures Records(event).Err? ==> r == Outcome(items, [], Some(Records(event).error))
    ensures r.error.None? ==> Records(event).Ok?
  {
    match Records(event)
    case Err(e) => Outcome(items, [], Some(e))
    case Ok(records) => Run(items, records, rek)
  }

  /** The `funny-reddit-posts` table, as a map from submission id to item. */
  class PostsTable {
    var items: map<string, Item>

    constructor(initial: map<string, Item>)
      ensures items == initial
    {
      items := initial;
    }

    /** `table.update_item(Key={'submissionId': id}, ...)` setting the two lists. */
    method UpdateRecognition(u: Update)
      modifies this
      ensures items == Updated(old(items), u)
    {
      var item := if u.id in items then items[u.id] else map[IdAttribute := AttrString(u.id)];
      item := item[CelebritiesAttribute := AttrList(u.celebrities)];
      item := item[TextsAttribute := AttrList(u.texts)];
      items := items[u.id := item];
    }
  }

  /** The handler over the table: the updates it made and the exception it raised. */
  method LambdaHandler(table: PostsTable, event: JsonValue, rek: Recognizer) returns (updates: seq<Update>, error: Option<Exception>)
    modifies table
    ensures Handler(old(table.items), event, rek) == Outcome(table.items, updates, error)
  {
    updates := [];
    var records := Records(event);
    if records.Err? {
      return updates, Some(records.error);
    }
    var rs := records.value;
    ghost var start := table.items;
    var i := 0;
    while i < |rs|
      invariant 0 <= i <= |rs|
      invariant var r := Run(table.items, rs[i..], rek);
        Run(start, rs, rek) == Outcome(r.items, updates + r.updates, r.error)
    {
      assert rs[i..][1..] == rs[i + 1..];
      var u := RecordUpdate(rs[i], rek);
      if u.Err? {
        return updates, Some(u.error);
      }
      LoopStep(start, rs, table.items, rs[i..], updates, rek);
      table.UpdateRecognition(u.value);
      updates := updates + [u.value];
      i := i + 1;
    }
    return updates, None;
  }

  // ---------------------------------------------------------------------------
  // Lemmas about the submission id

  /** The id is a prefix of the key's last segment, which is a suffix of the key;
      a key without `/` is the segment, a segment without `.` is the id. */
  lemma ExtractSubmissionIdShape(key: string)
    ensures var filename := Last(Split(key, '/'));
      var id := ExtractSubmissionId(key);
      && |filename| <= |key| && key[|key| - |filename|..] == filename && '/' !in filename
      && |id| <= |filename| && filename[..|id|] == id
      && (|id| < |filename| ==> filename[|id|] == '.')
      && ('/' !in key ==> filename == key)
      && ('.' !in filename ==> id == filename)
  {
    var filename := Last(Split(key, '/'));
    LastFieldIsSuffix(key, '/');
    FirstFieldIsPrefix(filename, '.');
    if '/' !in key {
      SplitWithoutSeparator(key, '/');
    }
  }

  /** `dir/<id>.<ext>` gives `<id>`, whatever the directory and however many dots
      follow the id (so `a.b.jpg` gives `a`). */
  lemma ExtractFromPath(dir: string, id: string, ext: string)
    requires '/' !in id && '.' !in id && '/' !in ext
    ensures ExtractSubmissionId(dir + "/" + id + "." + ext) == id
    ensures ExtractSubmissionId(id + "." + ext) == id
  {
    var filename := id + "." + ext;
    assert '/' !in filename;
    SplitWithoutSeparator(filename, '/');
    SplitWithoutSeparator(id, '.');
    assert id + "." + ext == id + ['.'] + ext;
    SplitConcat(id, '.', ext);
    assert dir + "/" + id + "." + ext == dir + ['/'] + filename;
    SplitConcat(dir, '/', filename);
  }

  /** The object key of the source's own example. */
  lemma ExtractExample()
    ensures ExtractSubmissionId("reddit/funny/posts/16ok566.jpg") == "16ok566"
  {
    var dir, id, ext := "reddit/funny/posts", "16ok566", "jpg";
    assert '/' !in id && '.' !in id && '/' !in ext;
    ExtractFromPath(dir, id, ext);
    assert dir + "/" + id + "." + ext == "reddit/funny/posts/16ok566.jpg";
  }

  /** A file name with two dots gives what precedes the first. */
  lemma ExtractTwoDots()
    ensures ExtractSubmissionId("a.b.jpg") == "a"
  {
    ExtractFromPath("", "a", "b.jpg");
    assert "a" + "." + "b.jpg" == "a.b.jpg";
  }

  /** The loop invariant of `LambdaHandler` carried over one successful record. */
  lemma LoopStep(start: map<string, Item>, rs: seq<JsonValue>, items: map<string, Item>, tail: seq<JsonValue>, updates: seq<Update>, rek: Recognizer)
    requires tail != [] && RecordUpdate(tail[0], rek).Ok?
    requires var r := Run(items, tail, rek);
      Run(start, rs, rek) == Outcome(r.items, updates + r.updates, r.error)
    ensures var u := RecordUpdate(tail[0], rek).value;
      var r := Run(Updated(items, u), tail[1..], rek);
      Run(start, rs, rek) == Outcome(r.items, (updates + [u]) + r.updates, r.error)
  {
    var u := RecordUpdate(tail[0], rek).value;
    var rest := Run(Updated(items, u), tail[1..], rek);
    assert Run(items, tail, rek) == Outcome(rest.items, [u] + rest.updates, rest.error) by {
      RunStep(items, tail, rek);
    }
    UpdatesAssoc(updates, [u], rest.updates);
  }

  lemma UpdatesAssoc(a: seq<Update>, b: seq<Update>, c: seq<Update>)
    ensures a + (b + c) == (a + b) + c
  {
  }

  // ---------------------------------------------------------------------------
  // Lemmas about updates and the loop

  /** An update creates or rewrites exactly the item of its id: in it only the two
      recognition attributes change (the key attribute is there for a new item), and
      every other item is unchanged. */
  lemma UpdatedItems(items: map<string, Item>, u: Update)
    ensures var after := Updated(items, u);
      && after.Keys == items.Keys + {u.id}
      && (forall k :: k in items && k != u.id ==> after[k] == items[k])
      && after[u.id][CelebritiesAttribute] == AttrList(u.celebrities)
      && after[u.id][TextsAttribute] == AttrList(u.texts)
      && (u.id in items ==>
            && after[u.id].Keys == items[u.id].Keys + {CelebritiesAttribute, TextsAttribute}
            && forall a :: a in items[u.id] && a != CelebritiesAttribute && a != TextsAttribute ==> after[u.id][a] == items[u.id][a])
      && (u.id !in items ==> after[u.id] == map[IdAttribute := AttrString(u.id), CelebritiesAttribute := AttrList(u.celebrities), TextsAttribute := AttrList(u.texts)])
  {
  }

  /** One step of the loop, for a record that yields an update. */
  lemma RunStep(items: map<string, Item>, records: seq<JsonValue>, rek: Recognizer)
    requires records != [] && RecordUpdate(records[0], rek).Ok?
    ensures var u := RecordUpdate(records[0], rek).value;
      var rest := Run(Updated(items, u), records[1..], rek);
      Run(items, records, rek) == Outcome(rest.items, [u] + rest.updates, rest.error)
  {
  }

  /** The updates are those of the records, one per record in record order, up to
      the record that raised `error`, or all of them when none did. */
  predicate UpdatesFollowRecords(records: seq<JsonValue>, rek: Recognizer, updates: seq<Update>, error: Option<Exception>)
  {
    && |updates| <= |records|
    && (error.None? <==> |updates| == |records|)
    && (forall i :: 0 <= i < |updates| ==> RecordUpdate(records[i], rek) == Ok(updates[i]))
    && (error.Some? ==> RecordUpdate(records[|updates|], rek) == Err(error.value))
  }

  /** Updates are made one per record, in record order, for every record before the
      one that raised (all of them when none did). */
  lemma {:induction false} RunUpdates(items: map<string, Item>, records: seq<JsonValue>, rek: Recognizer)
    ensures var r := Run(items, records, rek);
      UpdatesFollowRecords(records, rek, r.updates, r.error)
    decreases |records|
  {
    if records != [] {
      var first := RecordUpdate(records[0], rek);
      if first.Ok? {
        var after := Updated(items, first.value);
        RunStep(items, records, rek);
        RunUpdates(after, records[1..], rek);
        var rest := Run(after, records[1..], rek);
        FollowRecordsCons(records, rek, first.value, rest.updates, rest.error);
      }
    }
  }

  lemma FollowRecordsCons(records: seq<JsonValue>, rek: Recognizer, u: Update, updates: seq<Update>, error: Option<Exception>)
    requires records != [] && RecordUpdate(records[0], rek) == Ok(u)
    requires UpdatesFollowRecords(records[1..], rek, updates, error)
    ensures UpdatesFollowRecords(records, rek, [u] + updates, error)
  {
    var us := [u] + updates;
    forall i | 0 < i < |us|
      ensures RecordUpdate(records[i], rek) == Ok(us[i])
    {
      assert records[i] == records[1..][i - 1];
    }
    if error.Some? {
      assert records[|us|] == records[1..][|updates|];
    }
  }

  /** The table the loop leaves has an item for exactly the ids it had and the
      updated ones. */
  lemma {:induction false} RunKeys(items: map<string, Item>, records: seq<JsonValue>, rek: Recognizer)
    ensures var r := Run(items, records, rek);
      r.items.Keys == items.Keys + (set u | u in r.updates :: u.id)
    decreases |records|
  {
    if records != [] {
      var first := RecordUpdate(records[0], rek);
      if first.Ok? {
        var u := first.value;
        var after := Updated(items, u);
        RunStep(items, records, rek);
        RunKeys(after, records[1..], rek);
        var rest := Run(after, records[1..], rek);
        assert after.Keys == items.Keys + {u.id};
        UpdatedIdsCons(u, rest.updates);
      }
    }
  }

  lemma UpdatedIdsCons(u: Update, us: seq<Update>)
    ensures (set x | x in [u] + us :: x.id) == {u.id} + (set x | x in us :: x.id)
  {
  }

  /** Items of ids that no update names are left as they were. */
  lemma {:induction false} RunUntouched(items: map<string, Item>, records: seq<JsonValue>, rek: Recognizer, k: string)
    requires k in items
    requires forall u :: u in Run(items, records, rek).updates ==> u.id != k
    ensures var r := Run(items, records, rek);
      k in r.items && r.items[k] == items[k]
    decreases |records|
  {
    if records != [] {
      var first := RecordUpdate(records[0], rek);
      if first.Ok? {
        var u := first.value;
        var after := Updated(items, u);
        RunStep(items, records, rek);
        var rest := Run(after, records[1..], rek);
        assert u in [u] + rest.updates;
        assert forall x :: x in rest.updates ==> x in [u] + rest.updates;
        assert after[k] == items[k];
        RunUntouched(after, records[1..], rek, k);
      }
    }
  }

  /** The item of `u.id` holds the celebrities and texts of `u`. */
  predicate Recorded(items: map<string, Item>, u: Update)
  {
    && u.id in items && CelebritiesAttribute in items[u.id] && TextsAttribute in items[u.id]
    && items[u.id][CelebritiesAttribute] == AttrList(u.celebrities)
    && items[u.id][TextsAttribute] == AttrList(u.texts)
  }

  /** The last update of an id decides its two recognition attributes. */
  lemma {:induction false} RunLastUpdate(items: map<string, Item>, records: seq<JsonValue>, rek: Recognizer, j: int)
    requires var r := Run(items, records, rek);
      0 <= j < |r.updates| && forall l :: j < l < |r.updates| ==> r.updates[l].id != r.updates[j].id
    ensures var r := Run(items, records, rek);
      Recorded(r.items, r.updates[j])
    decreases |records|
  {
    RunMadeAnUpdate(items, records, rek);
    if j == 0 {
      LastUpdateIsFirst(items, records, rek);
    } else {
      var u := RecordUpdate(records[0], rek).value;
      RunStep(items, records, rek);
      var rest := Run(Updated(items, u), records[1..], rek);
      LaterUpdatesOfTail(u, rest.updates, j);
      RunLastUpdate(Updated(items, u), records[1..], rek, j - 1);
      LastUpdateIsLater(items, records, rek, j);
    }
  }

  /** A run that made an update started with a record that yields one. */
  lemma RunMadeAnUpdate(items: map<string, Item>, records: seq<JsonValue>, rek: Recognizer)
    requires |Run(items, records, rek).updates| > 0
    ensures records != [] && RecordUpdate(records[0], rek).Ok?
  {
  }

  /** The case of `RunLastUpdate` where the last update of the id is a later one,
      given the claim for the rest of the records. */
  lemma LastUpdateIsLater(items: map<string, Item>, records: seq<JsonValue>, rek: Recognizer, j: int)
    requires records != [] && RecordUpdate(records[0], rek).Ok?
    requires var rest := Run(Updated(items, RecordUpdate(records[0], rek).value), records[1..], rek);
      0 < j <= |rest.updates| && Recorded(rest.items, rest.updates[j - 1])
    ensures var r := Run(items, records, rek);
      j < |r.updates| && Recorded(r.items, r.updates[j])
  {
    RunStep(items, records, rek);
  }

  /** No later update names the id of update `j` of `[u] + us`: the same holds of
      update `j - 1` of `us`. */
  lemma LaterUpdatesOfTail(u: Update, us: seq<Update>, j: int)
    requires 0 < j < |[u] + us|
    requires forall l :: j < l < |[u] + us| ==> ([u] + us)[l].id != ([u] + us)[j].id
    ensures forall l :: j - 1 < l < |us| ==> us[l].id != us[j - 1].id
  {
    forall l | j - 1 < l < |us| ensures us[l].id != us[j - 1].id {
      assert ([u] + us)[l + 1] == us[l];
    }
  }

  /** The case of `RunLastUpdate` where the last update of the id is the first one. */
  lemma LastUpdateIsFirst(items: map<string, Item>, records: seq<JsonValue>, rek: Recognizer)
    requires records != [] && RecordUpdate(records[0], rek).Ok?
    requires var r := Run(items, records, rek);
      forall l :: 0 < l < |r.updates| ==> r.updates[l].id != RecordUpdate(records[0], rek).value.id
    ensures Recorded(Run(items, records, rek).items, RecordUpdate(records[0], rek).value)
  {
    var u := RecordUpdate(records[0], rek).value;
    var after := Updated(items, u);
    RunStep(items, records, rek);
    var rest := Run(after, records[1..], rek);
    NoLaterUpdateOf(u, rest.updates);
    assert Recorded(after, u) by { UpdatedItems(items, u); }
    RunUntouched(after, records[1..], rek, u.id);
  }

  lemma NoLaterUpdateOf(u: Update, us: seq<Update>)
    requires forall l :: 0 < l < |[u] + us| ==> ([u] + us)[l].id != u.id
    ensures forall x :: x in us ==> x.id != u.id
  {
    forall x | x in us ensures x.id != u.id {
      var l :| 0 <= l < |us| && us[l] == x;
      assert ([u] + us)[l + 1] == x;
    }
  }

  /** A record without `body` stops the loop with KeyError('body') after exactly
      the updates of the records before it, if those all succeed. */
  lemma MissingBodyStops(items: map<string, Item>, records: seq<JsonValue>, i: int, rek: Recognizer)
    requires 0 <= i < |records| && records[i].JObject? && BodyKey !in records[i].fields
    requires forall j :: 0 <= j < i ==> RecordUpdate(records[j], rek).Ok?
    ensures var r := Run(items, records, rek);
      r.error == Some(MissingKey(BodyKey)) && |r.updates| == i
      && forall j :: 0 <= j < i ==> r.updates[j] == RecordUpdate(records[j], rek).value
  {
    RunUpdates(items, records, rek);
    var r := Run(items, records, rek);
    assert RecordUpdate(records[i], rek) == Err(MissingKey(BodyKey));
    if |r.updates| != i {
      assert false;
    }
  }
}
