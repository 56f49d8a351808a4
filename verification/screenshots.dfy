/**
 * Screenshots: the test-id → exported-file-names map that `_export_attachments`
 * builds from the exported manifest, and the lookup `build_html` performs on
 * it for each detail row.
 */
module Screenshots {
  import opened Wrappers
  import opened Json
  import opened PyText

  /** One key of the map with its exported file names. */
  datatype Entry = Entry(key: string, files: seq<string>)

  /** The map, as a list of entries in insertion order (Python dicts keep it). */
  type Index = seq<Entry>

  /** Every key occurs once. */
  predicate DistinctKeys(idx: Index) {
    forall i, j | 0 <= i < j < |idx| :: idx[i].key != idx[j].key
  }

  /** No key is empty and no key maps to an empty list. */
  predicate Populated(idx: Index) {
    forall i | 0 <= i < |idx| :: idx[i].key != "" && idx[i].files != []
  }

  /** The keys, in order. */
  function Keys(idx: Index): (ks: seq<string>)
    ensures |ks| == |idx|
    ensures forall i | 0 <= i < |idx| :: ks[i] == idx[i].key
  {
    if idx == [] then [] else [idx[0].key] + Keys(idx[1..])
  }

  /** `index.get(key)`: the files of the first entry with that key. */
  function Find(idx: Index, key: string): (r: Option<seq<string>>)
    ensures r.Some? <==> key in Keys(idx)
    ensures r.Some? ==> exists i | 0 <= i < |idx| :: idx[i] == Entry(key, r.value)
  {
    if idx == [] then None
    else if idx[0].key == key then Some(idx[0].files)
    else
      var r := Find(idx[1..], key);
      assert Keys(idx) == [idx[0].key] + Keys(idx[1..]);
      assert forall i | 0 <= i < |idx| - 1 :: idx[1..][i] == idx[i + 1];
      r
  }

  /** With distinct keys, `Find` gives the files of the entry holding the key. */
  lemma {:induction false} FindAt(idx: Index, i: nat)
    requires DistinctKeys(idx) && i < |idx|
    ensures Find(idx, idx[i].key) == Some(idx[i].files)
  {
    if i > 0 {
      assert idx[1..][i - 1] == idx[i];
      assert DistinctKeys(idx[1..]) by {
        forall a, b | 0 <= a < b < |idx| - 1
          ensures idx[1..][a].key != idx[1..][b].key
        {
          assert idx[1..][a] == idx[a + 1] && idx[1..][b] == idx[b + 1];
        }
      }
      FindAt(idx[1..], i - 1);
    }
  }

  /** `index[key] = files` */
  function Put(idx: Index, key: string, files: seq<string>): Index {
    if idx == [] then [Entry(key, files)]
    else if idx[0].key == key then [Entry(key, files)] + idx[1..]
    else [idx[0]] + Put(idx[1..], key, files)
  }

  /** A store gives the key the new files; every other key keeps its files. */
  lemma {:induction false} PutFind(idx: Index, key: string, files: seq<string>, k: string)
    ensures Find(Put(idx, key, files), k) == if k == key then Some(files) else Find(idx, k)
  {
    if idx != [] && idx[0].key != key {
      var r := Put(idx, key, files);
      assert r[1..] == Put(idx[1..], key, files);
      PutFind(idx[1..], key, files, k);
    }
  }

  /** A key already present keeps its place; a new key goes last. */
  lemma {:induction false} PutKeys(idx: Index, key: string, files: seq<string>)
    ensures Keys(Put(idx, key, files)) == if key in Keys(idx) then Keys(idx) else Keys(idx) + [key]
  {
    var r := Put(idx, key, files);
    if idx == [] {
      assert Keys(r) == [key] + Keys([]);
    } else if idx[0].key == key {
      assert r[1..] == idx[1..];
      assert Keys(r) == [key] + Keys(idx[1..]);
      assert Keys(idx) == [key] + Keys(idx[1..]);
    } else {
      var rest := Put(idx[1..], key, files);
      PutKeys(idx[1..], key, files);
      assert r[1..] == rest;
      assert Keys(r) == [idx[0].key] + Keys(rest);
      assert Keys(idx) == [idx[0].key] + Keys(idx[1..]);
    }
  }

  /** Each distinct-key entry stays distinct after a store; a store of a non-empty key and list keeps the index populated. */
  lemma PutKeepsShape(idx: Index, key: string, files: seq<string>)
    ensures DistinctKeys(idx) ==> DistinctKeys(Put(idx, key, files))
    ensures Populated(idx) && key != "" && files != [] ==> Populated(Put(idx, key, files))
  {
    var r := Put(idx, key, files);
    PutKeys(idx, key, files);
    var ks, rs := Keys(idx), Keys(r);
    if DistinctKeys(idx) {
      forall i, j | 0 <= i < j < |r|
        ensures r[i].key != r[j].key
      {
        assert rs[i] == r[i].key && rs[j] == r[j].key;
        if key !in ks {
          if j < |idx| {
            assert rs[i] == ks[i] && rs[j] == ks[j];
          } else {
            assert rs[j] == key && rs[i] == ks[i];
          }
        } else {
          assert rs[i] == ks[i] && rs[j] == ks[j];
        }
      }
    }
    if Populated(idx) && key != "" && files != [] {
      forall i | 0 <= i < |r|
        ensures r[i].key != "" && r[i].files != []
      {
        var k := r[i].key;
        assert k in Keys(r);
        if k == key {
          assert r[i].key != "";
          PutFilesAt(idx, key, files, i);
        } else {
          PutFilesAt(idx, key, files, i);
        }
      }
    }
  }

  /** Every entry after a store either holds the stored files or is an entry of the old index. */
  lemma {:induction false} PutFilesAt(idx: Index, key: string, files: seq<string>, i: nat)
    requires i < |Put(idx, key, files)|
    ensures var e := Put(idx, key, files)[i];
      (e.key == key && e.files == files) || e in idx
  {
    if idx != [] && idx[0].key != key && i > 0 {
      PutFilesAt(idx[1..], key, files, i - 1);
    }
  }

  /** The entry list a manifest holds: the manifest itself when it is a list, otherwise the first truthy of three keys. */
  function DetailsList(manifest: Json): (r: Json)
    ensures manifest.JArray? ==> r == manifest
    ensures manifest.JObject? ==>
      var ms := manifest.members;
      r == Or(Or(Or(GetOrNull(ms, "testAttachmentDetails"), GetOrNull(ms, "testAttachmentDetailsList")),
                 GetOrNull(ms, "attachments")),
              JArray([]))
    ensures !manifest.JArray? && !manifest.JObject? ==> r == JArray([])
  {
    if manifest.JArray? then manifest
    else if manifest.JObject? then
      var ms := manifest.members;
      Or(Or(Or(GetOrNull(ms, "testAttachmentDetails"), GetOrNull(ms, "testAttachmentDetailsList")),
            GetOrNull(ms, "attachments")),
         JArray([]))
    else JArray([])
  }

  /**
   * The exported file name an attachment record contributes: none for a
   * record that is not a mapping or whose exportedFileName is falsy; its
   * exportedFileName when that is a non-empty string; a fault otherwise.
   */
  function FileOf(att: Json): (r: Result<Option<string>, Fault>)
    ensures r == Ok(None) <==> !att.JObject? || !Truthy(GetOrNull(att.members, "exportedFileName"))
    ensures r.Ok? && r.value.Some? ==>
      && att.JObject? && GetOrNull(att.members, "exportedFileName") == JString(r.value.value)
      && r.value.value != ""
    ensures r.Err? <==> att.JObject? && Truthy(GetOrNull(att.members, "exportedFileName")) && !GetOrNull(att.members, "exportedFileName").JString?
  {
    if att.JObject? && Truthy(GetOrNull(att.members, "exportedFileName")) then
      match Text(GetOrNull(att.members, "exportedFileName"), "exportedFileName")
      case Err(e) => Err(e)
      case Ok(name) => Ok(Some(name))
    else Ok(None)
  }

  /** The file names of a list of attachment records, in order. */
  function FilesOf(atts: seq<Json>): (r: Result<seq<string>, Fault>)
    ensures r.Ok? ==> |r.value| <= |atts| && forall i | 0 <= i < |r.value| :: r.value[i] != ""
  {
    if atts == [] then Ok([])
    else
      match FilesOf(atts[..|atts| - 1])
      case Err(e) => Err(e)
      case Ok(names) =>
        match FileOf(atts[|atts| - 1])
        case Err(e) => Err(e)
        case Ok(None) => Ok(names)
        case Ok(Some(name)) => Ok(names + [name])
  }

  /** The names of two lists of records, one after the other, are the names of the joined list. */
  lemma {:induction false} FilesOfAppend(a: seq<Json>, b: seq<Json>)
    requires FilesOf(a + b).Ok?
    ensures FilesOf(a).Ok? && FilesOf(b).Ok?
    ensures FilesOf(a + b).value == FilesOf(a).value + FilesOf(b).value
    decreases |b|
  {
    if b == [] {
      assert a + b == a;
    } else {
      var init := b[..|b| - 1];
      var last := b[|b| - 1];
      assert (a + b)[..|a + b| - 1] == a + init;
      assert (a + b)[|a + b| - 1] == last;
      FilesOfAppend(a, init);
      match FileOf(last)
      case Ok(None) =>
      case Ok(Some(name)) =>
        assert FilesOf(a + b).value == FilesOf(a + init).value + [name];
        assert FilesOf(b).value == FilesOf(init).value + [name];
    }
  }

  /**
   * The names are the truthy exportedFileName strings of the records: each
   * name comes from some record, and each record with a name contributes it.
   */
  lemma {:induction false} FilesOfNames(atts: seq<Json>)
    requires FilesOf(atts).Ok?
    ensures forall i | 0 <= i < |FilesOf(atts).value| ::
      exists j | 0 <= j < |atts| :: FileOf(atts[j]) == Ok(Some(FilesOf(atts).value[i]))
    ensures forall j | 0 <= j < |atts| ::
      FileOf(atts[j]).Ok? && (FileOf(atts[j]).value.Some? ==> FileOf(atts[j]).value.value in FilesOf(atts).value)
  {
    if atts != [] {
      var init := atts[..|atts| - 1];
      var last := atts[|atts| - 1];
      FilesOfNames(init);
      var names := FilesOf(init).value;
      var all := FilesOf(atts).value;
      assert names <= all;
      forall i | 0 <= i < |all|
        ensures exists j | 0 <= j < |atts| :: FileOf(atts[j]) == Ok(Some(all[i]))
      {
        if i < |names| {
          var j :| 0 <= j < |init| && FileOf(init[j]) == Ok(Some(names[i]));
          assert atts[j] == init[j];
        } else {
          assert FileOf(atts[|atts| - 1]) == Ok(Some(all[i]));
        }
      }
      forall j | 0 <= j < |atts|
        ensures FileOf(atts[j]).Ok? && (FileOf(atts[j]).value.Some? ==> FileOf(atts[j]).value.value in all)
      {
        if j < |init| {
          assert atts[j] == init[j];
        } else {
          assert atts[j] == last;
        }
      }
    }
  }

  /** The identifier an entry is filed under: testIdentifier, else testIdentifierURL. */
  function IdOf(ms: seq<Member>): Json {
    Or(Or(GetOrNull(ms, "testIdentifier"), GetOrNull(ms, "testIdentifierURL")), JString(""))
  }

  /** The attachment records of an entry. */
  function AttachmentsOf(ms: seq<Member>): Json {
    Or(GetOrNull(ms, "attachments"), JArray([]))
  }

  /** What one manifest entry does to the index. */
  function IndexEntry(idx: Index, entry: Json): Result<Index, Fault> {
    if !entry.JObject? then Ok(idx)
    else
      var ms := entry.members;
      var id := IdOf(ms);
      if !Truthy(id) then Ok(idx)
      else
        match Iterate(AttachmentsOf(ms))
        case Err(e) => Err(e)
        case Ok(atts) =>
          match FilesOf(atts)
          case Err(e) => Err(e)
          case Ok(files) =>
            if files == [] then Ok(idx)
            else if !id.JString? then Err(NotText("testIdentifier"))
            else
              var filed := Put(idx, id.s, files);
              var url := GetOrNull(ms, "testIdentifierURL");
              if Truthy(url) && url != id then
                if url.JString? then Ok(Put(filed, url.s, files)) else Err(NotText("testIdentifierURL"))
              else Ok(filed)
  }

  /** The index after a list of entries, in order; the first fault ends the walk. */
  function IndexEntries(entries: seq<Json>): Result<Index, Fault> {
    if entries == [] then Ok([])
    else
      match IndexEntries(entries[..|entries| - 1])
      case Err(e) => Err(e)
      case Ok(idx) => IndexEntry(idx, entries[|entries| - 1])
  }

  /** The map `_export_attachments` returns for a parsed manifest; None stands for an empty map. */
  function ManifestIndex(manifest: Json): Result<Option<Index>, Fault> {
    match Iterate(DetailsList(manifest))
    case Err(e) => Err(e)
    case Ok(entries) =>
      match IndexEntries(entries)
      case Err(e) => Err(e)
      case Ok(idx) => Ok(if idx == [] then None else Some(idx))
  }

  /** One entry keeps the index free of duplicate keys, empty keys and empty lists. */
  lemma IndexEntryKeepsShape(idx: Index, entry: Json)
    requires DistinctKeys(idx) && Populated(idx)
    ensures IndexEntry(idx, entry).Ok? ==> DistinctKeys(IndexEntry(idx, entry).value) && Populated(IndexEntry(idx, entry).value)
  {
    if entry.JObject? && Truthy(IdOf(entry.members)) {
      var ms := entry.members;
      var id := IdOf(ms);
      var atts := Iterate(AttachmentsOf(ms));
      if atts.Ok? && FilesOf(atts.value).Ok? && FilesOf(atts.value).value != [] && id.JString? {
        var files := FilesOf(atts.value).value;
        PutKeepsShape(idx, id.s, files);
        var url := GetOrNull(ms, "testIdentifierURL");
        if Truthy(url) && url.JString? {
          PutKeepsShape(Put(idx, id.s, files), url.s, files);
        }
      }
    }
  }

  /** Every index built from a manifest has distinct, non-empty keys, each with a non-empty list of non-empty names. */
  lemma {:induction false} IndexEntriesShape(entries: seq<Json>)
    requires IndexEntries(entries).Ok?
    ensures DistinctKeys(IndexEntries(entries).value) && Populated(IndexEntries(entries).value)
  {
    if entries != [] {
      IndexEntriesShape(entries[..|entries| - 1]);
      IndexEntryKeepsShape(IndexEntries(entries[..|entries| - 1]).value, entries[|entries| - 1]);
    }
  }

  /**
   * An entry whose identifier and URL differ files its names under both;
   * no other key changes.
   */
  lemma UrlAlias(idx: Index, ms: seq<Member>, id: string, url: string, files: seq<string>)
    requires GetOrNull(ms, "testIdentifier") == JString(id) && id != ""
    requires GetOrNull(ms, "testIdentifierURL") == JString(url) && url != ""
    requires Iterate(AttachmentsOf(ms)).Ok? && FilesOf(Iterate(AttachmentsOf(ms)).value) == Ok(files) && files != []
    ensures IndexEntry(idx, JObject(ms)).Ok?
    ensures var r := IndexEntry(idx, JObject(ms)).value;
      && Find(r, id) == Some(files)
      && Find(r, url) == Some(files)
      && forall k | k != id && k != url :: Find(r, k) == Find(idx, k)
  {
    var filed := Put(idx, id, files);
    var r := if url != id then Put(filed, url, files) else filed;
    UrlAliasEntry(idx, ms, id, url, files);
    forall k
      ensures Find(r, k) == if k == id || k == url then Some(files) else Find(idx, k)
    {
      PutFind(idx, id, files, k);
      PutFind(filed, url, files, k);
    }
  }

  /** The index after an entry with an identifier and a URL. */
  lemma UrlAliasEntry(idx: Index, ms: seq<Member>, id: string, url: string, files: seq<string>)
    requires GetOrNull(ms, "testIdentifier") == JString(id) && id != ""
    requires GetOrNull(ms, "testIdentifierURL") == JString(url) && url != ""
    requires Iterate(AttachmentsOf(ms)).Ok? && FilesOf(Iterate(AttachmentsOf(ms)).value) == Ok(files) && files != []
    ensures IndexEntry(idx, JObject(ms)) == Ok(if url != id then Put(Put(idx, id, files), url, files) else Put(idx, id, files))
  {
    assert IdOf(ms) == JString(id);
  }

  /**
   * An entry with only an identifier, or only a URL, files its names under
   * that one key; no other key changes.
   */
  lemma SingleKeyEntry(idx: Index, ms: seq<Member>, key: string, files: seq<string>)
    requires key != ""
    requires
      || (GetOrNull(ms, "testIdentifier") == JString(key) && !Truthy(GetOrNull(ms, "testIdentifierURL")))
      || (!Truthy(GetOrNull(ms, "testIdentifier")) && GetOrNull(ms, "testIdentifierURL") == JString(key))
    requires Iterate(AttachmentsOf(ms)).Ok? && FilesOf(Iterate(AttachmentsOf(ms)).value) == Ok(files) && files != []
    ensures IndexEntry(idx, JObject(ms)) == Ok(Put(idx, key, files))
    ensures Find(Put(idx, key, files), key) == Some(files)
    ensures forall k | k != key :: Find(Put(idx, key, files), k) == Find(idx, k)
  {
    assert IdOf(ms) == JString(key);
    forall k {
      PutFind(idx, key, files, k);
    }
  }

  /**
   * An entry that is not a mapping, has no identifier, or has no exported
   * file names leaves the index as it is.
   */
  lemma SkippedEntry(idx: Index, entry: Json)
    requires
      || !entry.JObject?
      || !Truthy(IdOf(entry.members))
      || (Iterate(AttachmentsOf(entry.members)).Ok? && FilesOf(Iterate(AttachmentsOf(entry.members)).value) == Ok([]))
    ensures IndexEntry(idx, entry) == Ok(idx)
  {
  }

  /** A manifest that is neither a list nor a mapping gives no map. */
  lemma ScalarManifest(manifest: Json)
    requires !manifest.JArray? && !manifest.JObject?
    ensures ManifestIndex(manifest) == Ok(None)
  {
    assert IndexEntries([]) == Ok([]);
  }

  /**
   * The entries are indexed one by one, as the loop of the source fills
   * `by_id`.
   */
  method IndexManifest(manifest: Json) returns (r: Result<Option<Index>, Fault>)
    ensures r == ManifestIndex(manifest)
    ensures r.Ok? && r.value.Some? ==> DistinctKeys(r.value.value) && Populated(r.value.value)
  {
    var listing := Iterate(DetailsList(manifest));
    if listing.Err? {
      return Err(listing.error);
    }
    var entries := listing.value;
    var byId: Index := [];
    var i := 0;
    while i < |entries|
      invariant 0 <= i <= |entries|
      invariant IndexEntries(entries[..i]) == Ok(byId)
    {
      assert entries[..i + 1][..i] == entries[..i];
      var next := FileEntry(byId, entries[i]);
      i := i + 1;
      if next.Err? {
        EntriesFaultSticks(entries, i, next.error);
        return Err(next.error);
      }
      byId := next.value;
    }
    assert entries[..i] == entries;
    IndexEntriesShape(entries);
    r := Ok(if byId == [] then None else Some(byId));
  }

  /**
   * The body of the entry loop: the entry's file names are collected, then
   * filed under its identifier and, when different, its URL.
   */
  method FileEntry(byId: Index, entry: Json) returns (r: Result<Index, Fault>)
    ensures r == IndexEntry(byId, entry)
  {
    if !entry.JObject? {
      return Ok(byId);
    }
    var ms := entry.members;
    var id := IdOf(ms);
    var attachments := AttachmentsOf(ms);
    if !Truthy(id) {
      return Ok(byId);
    }
    var atts := Iterate(attachments);
    if atts.Err? {
      return Err(atts.error);
    }
    var filenames := CollectFileNames(atts.value);
    if filenames.Err? {
      return Err(filenames.error);
    }
    var files := filenames.value;
    if files == [] {
      return Ok(byId);
    }
    if !id.JString? {
      return Err(NotText("testIdentifier"));
    }
    var filed := Put(byId, id.s, files);
    var url := GetOrNull(ms, "testIdentifierURL");
    if Truthy(url) && url != id {
      if !url.JString? {
        return Err(NotText("testIdentifierURL"));
      }
      filed := Put(filed, url.s, files);
    }
    return Ok(filed);
  }

  /** The attachment loop: the exported file names, one record after the other. */
  method CollectFileNames(atts: seq<Json>) returns (r: Result<seq<string>, Fault>)
    ensures r == FilesOf(atts)
  {
    var filenames: seq<string> := [];
    var j := 0;
    while j < |atts|
      invariant 0 <= j <= |atts|
      invariant FilesOf(atts[..j]) == Ok(filenames)
    {
      assert atts[..j + 1][..j] == atts[..j];
      var name := FileOf(atts[j]);
      j := j + 1;
      match name {
        case Err(e) =>
          FilesFaultSticks(atts, j, e);
          return Err(e);
        case Ok(None) =>
        case Ok(Some(n)) =>
          filenames := filenames + [n];
      }
    }
    assert atts[..j] == atts;
    r := Ok(filenames);
  }

  /** A fault among the first entries is the result for the whole list. */
  lemma {:induction false} EntriesFaultSticks(entries: seq<Json>, k: nat, e: Fault)
    requires k <= |entries| && IndexEntries(entries[..k]) == Err(e)
    ensures IndexEntries(entries) == Err(e)
    decreases |entries| - k
  {
    if k < |entries| {
      assert entries[..k + 1][..k] == entries[..k];
      EntriesFaultSticks(entries, k + 1, e);
    } else {
      assert entries[..k] == entries;
    }
  }

  /** A fault among the first attachment records is the result for the whole list. */
  lemma {:induction false} FilesFaultSticks(atts: seq<Json>, k: nat, e: Fault)
    requires k <= |atts| && FilesOf(atts[..k]) == Err(e)
    ensures FilesOf(atts) == Err(e)
    decreases |atts| - k
  {
    if k < |atts| {
      assert atts[..k + 1][..k] == atts[..k];
      FilesFaultSticks(atts, k + 1, e);
    } else {
      assert atts[..k] == atts;
    }
  }

  /**
   * The fallback rule for a key other than the exact identifier: the
   * identifier occurs in the key, ends it, or (when non-empty) has the same
   * last `/`-segment.
   */
  predicate Matches(key: string, id: string) {
    Contains(key, id) || EndsWith(key, id) || (id != "" && LastSegment(key, '/') == LastSegment(id, '/'))
  }

  /** The files of the first key, in insertion order, that matches the identifier. */
  function FirstMatching(idx: Index, id: string): (r: Option<seq<string>>)
    ensures r.Some? <==> exists i | 0 <= i < |idx| :: Matches(idx[i].key, id)
    ensures r.Some? ==> exists i | 0 <= i < |idx| ::
      && Matches(idx[i].key, id) && idx[i].files == r.value
      && forall j | 0 <= j < i :: !Matches(idx[j].key, id)
  {
    if idx == [] then None
    else if Matches(idx[0].key, id) then Some(idx[0].files)
    else
      var r := FirstMatching(idx[1..], id);
      FirstMatchingShift(idx, id, r);
      r
  }

  /** A first match in the keys after the first is a first match in all the keys, when the first key does not match. */
  lemma FirstMatchingShift(idx: Index, id: string, r: Option<seq<string>>)
    requires idx != [] && !Matches(idx[0].key, id)
    requires r.Some? <==> exists i | 0 <= i < |idx[1..]| :: Matches(idx[1..][i].key, id)
    requires r.Some? ==> exists i | 0 <= i < |idx[1..]| ::
      && Matches(idx[1..][i].key, id) && idx[1..][i].files == r.value
      && forall j | 0 <= j < i :: !Matches(idx[1..][j].key, id)
    ensures r.Some? <==> exists i | 0 <= i < |idx| :: Matches(idx[i].key, id)
    ensures r.Some? ==> exists i | 0 <= i < |idx| ::
      && Matches(idx[i].key, id) && idx[i].files == r.value
      && forall j | 0 <= j < i :: !Matches(idx[j].key, id)
  {
    assert forall i | 0 <= i < |idx| - 1 :: idx[1..][i] == idx[i + 1];
    if r.Some? {
      var i :| 0 <= i < |idx| - 1 && Matches(idx[1..][i].key, id) && idx[1..][i].files == r.value
        && forall j | 0 <= j < i :: !Matches(idx[1..][j].key, id);
      assert Matches(idx[i + 1].key, id) && idx[i + 1].files == r.value;
      forall j | 0 <= j < i + 1
        ensures !Matches(idx[j].key, id)
      {
        if j > 0 {
          assert idx[1..][j - 1] == idx[j];
        }
      }
    } else {
      forall i | 0 <= i < |idx|
        ensures !Matches(idx[i].key, id)
      {
        if i > 0 {
          assert idx[1..][i - 1] == idx[i];
        }
      }
    }
  }

  /** The screenshots `build_html` shows for a detail, as the source is written. */
  function FindShotsAsWritten(idx: Index, id: string): seq<string> {
    var exact := Find(idx, id);
    if exact.Some? && exact.value != [] then exact.value
    else
      match FirstMatching(idx, id)
      case Some(files) => files
      case None => []
  }

  /** The screenshots shown for a detail, with the fallback search limited to a non-empty identifier. */
  function FindShots(idx: Index, id: string): seq<string> {
    var exact := Find(idx, id);
    if exact.Some? && exact.value != [] then exact.value
    else if id == "" then []
    else
      match FirstMatching(idx, id)
      case Some(files) => files
      case None => []
  }

  /** A key equal to the identifier, with screenshots, wins before any other key is tried. */
  lemma ExactKeyFirst(idx: Index, id: string, files: seq<string>)
    requires Find(idx, id) == Some(files) && files != []
    ensures FindShots(idx, id) == files
    ensures FindShotsAsWritten(idx, id) == files
  {
  }

  /** The empty identifier occurs in every key, so it matches every key. */
  lemma EmptyIdMatchesAll(key: string)
    ensures Matches(key, "")
  {
    assert "" <= key;
  }

  /**
   * As written, a detail without an identifier shows the screenshots of the
   * first key of any map whose keys are non-empty.
   */
  lemma AsWrittenEmptyIdTakesFirstKey(idx: Index)
    requires idx != [] && Populated(idx)
    ensures FindShotsAsWritten(idx, "") == idx[0].files
  {
    assert "" !in Keys(idx);
    EmptyIdMatchesAll(idx[0].key);
  }

  /** A failure with no identifier, reported next to another test's screenshot. */
  lemma AsWrittenEmptyIdCounterexample()
    ensures FindShotsAsWritten([Entry("SuiteA/testA", ["testA_1.png"])], "") == ["testA_1.png"]
  {
    AsWrittenEmptyIdTakesFirstKey([Entry("SuiteA/testA", ["testA_1.png"])]);
  }

  /**
   * With the fallback limited to a non-empty identifier, every screenshot
   * list shown is the list of a key equal to the identifier or one matching
   * a non-empty identifier; a detail without an identifier shows none from a
   * map whose keys are non-empty.
   */
  lemma FindShotsSource(idx: Index, id: string)
    ensures var r := FindShots(idx, id);
      r != [] ==> exists i | 0 <= i < |idx| :: idx[i].files == r && (idx[i].key == id || (id != "" && Matches(idx[i].key, id)))
    ensures Populated(idx) ==> FindShots(idx, "") == []
  {
  }

  /** For a non-empty identifier the limited lookup is the source's lookup. */
  lemma FindShotsAgrees(idx: Index, id: string)
    requires id != ""
    ensures FindShots(idx, id) == FindShotsAsWritten(idx, id)
  {
  }

  /**
   * The lookup: the exact key first, then, for a non-empty identifier, the
   * keys in order until one matches.
   */
  method LookupShots(idx: Index, id: string) returns (imgs: seq<string>)
    ensures imgs == FindShots(idx, id)
  {
    var exact := Find(idx, id);
    if exact.Some? && exact.value != [] {
      return exact.value;
    }
    imgs := [];
    if id != "" {
      var found := ScanKeys(idx, id);
      if found.Some? {
        imgs := found.value;
      }
    }
  }

  /** The fallback loop over the keys, in insertion order, up to the first that matches. */
  method ScanKeys(idx: Index, id: string) returns (r: Option<seq<string>>)
    ensures r == FirstMatching(idx, id)
  {
    var i := 0;
    while i < |idx|
      invariant 0 <= i <= |idx|
      invariant forall j | 0 <= j < i :: !Matches(idx[j].key, id)
    {
      if Matches(idx[i].key, id) {
        FirstMatchingAt(idx, id, i);
        return Some(idx[i].files);
      }
      i := i + 1;
    }
    return None;
  }

  /** The first matching key gives the result of `FirstMatching`. */
  lemma {:induction false} FirstMatchingAt(idx: Index, id: string, i: nat)
    requires i < |idx| && Matches(idx[i].key, id)
    requires forall j | 0 <= j < i :: !Matches(idx[j].key, id)
    ensures FirstMatching(idx, id) == Some(idx[i].files)
  {
    if i > 0 {
      assert idx[1..][i - 1] == idx[i];
      assert forall j | 0 <= j < i - 1 :: idx[1..][j] == idx[j + 1];
      FirstMatchingAt(idx[1..], id, i - 1);
    }
  }
}
