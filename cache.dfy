/**
 * The summary cache: a string-keyed store of earlier summaries, loaded once
 * from a JSON file on a best-effort basis, read back with validation and
 * overwritten entry by entry.
 */
module Cache {
  import opened Wrappers
  import opened PyValue

  /** One cached summary, as `get` returns it. */
  datatype CacheEntry = CacheEntry(content: string, chunksUsed: int, truncated: bool)

  /** What reading the cache file produced: no file, a read or parse failure,
      or a parsed JSON document. */
  datatype CacheFile = Missing | Unreadable | Parsed(document: Value)

  /** The map a load yields: the document's members when it is a JSON
      object, otherwise the empty map. */
  function Loaded(file: CacheFile): (m: map<string, Value>)
    ensures m != map[] ==> file.Parsed? && file.document.Object? && m == file.document.fields
  {
    if file.Parsed? && file.document.Object? then file.document.fields else map[]
  }

  /** The record `set` stores for an entry. */
  function Stored(entry: CacheEntry): Value {
    Object(map[
      "content" := Str(entry.content),
      "chunks_used" := Int(entry.chunksUsed),
      "truncated" := Bool(entry.truncated)])
  }

  /** `get(key)` on the map `data`: `Ok(None)` when the key is absent, its
      value is not a mapping or its content is not a string; `Err` when
      `int(chunks_used)` raises; otherwise the entry with `chunks_used`
      defaulted to 1 and raised to at least 1, and `truncated` defaulted to
      False and converted with `bool`. */
  function Lookup(data: map<string, Value>, key: string): (r: Result<Option<CacheEntry>>)
    ensures r == Ok(None) <==>
      key !in data || !data[key].Object? || "content" !in data[key].fields
      || !data[key].fields["content"].Str?
    ensures r.Ok? && r.value.Some? ==>
      key in data && data[key].Object? && "content" in data[key].fields
      && data[key].fields["content"] == Str(r.value.value.content)
      && r.value.value.chunksUsed >= 1
    ensures key in data && data[key].Object? && "content" in data[key].fields && data[key].fields["content"].Str? ==>
      var raw := data[key].fields;
      var n := PyInt(if "chunks_used" in raw then raw["chunks_used"] else Int(1));
      && (r.Err? <==> n.Err?)
      && (n.Err? ==> r.error == n.error)
      && (n.Ok? ==> r.value.Some?
                    && r.value.value.chunksUsed == (if n.value < 1 then 1 else n.value)
                    && r.value.value.truncated == Truthy(if "truncated" in raw then raw["truncated"] else Bool(false)))
  {
    if key !in data || !data[key].Object? then Ok(None)
    else
      var raw := data[key].fields;
      var content := if "content" in raw then raw["content"] else Null;
      var chunksUsed := if "chunks_used" in raw then raw["chunks_used"] else Int(1);
      var truncated := if "truncated" in raw then raw["truncated"] else Bool(false);
      if !content.Str? then Ok(None)
      else
        match PyInt(chunksUsed)
        case Err(e) => Err(e)
        case Ok(n) => Ok(Some(CacheEntry(content.s, if n < 1 then 1 else n, Truthy(truncated))))
  }

  /** `set` followed by `get` on the same key returns the stored content and
      truncation flag, with the chunk count raised to at least 1. */
  lemma SetThenGet(data: map<string, Value>, key: string, entry: CacheEntry)
    ensures Lookup(data[key := Stored(entry)], key)
      == Ok(Some(CacheEntry(entry.content, if entry.chunksUsed < 1 then 1 else entry.chunksUsed, entry.truncated)))
  {
    var raw := Stored(entry).fields;
    assert raw["content"] == Str(entry.content);
    assert raw["chunks_used"] == Int(entry.chunksUsed);
    assert raw["truncated"] == Bool(entry.truncated);
  }

  /** A record holding only a string content reads back with one chunk and
      not truncated. */
  lemma ContentOnlyReadsDefaults(data: map<string, Value>, key: string, c: string)
    requires key in data && data[key] == Object(map["content" := Str(c)])
    ensures Lookup(data, key) == Ok(Some(CacheEntry(c, 1, false)))
  {
    var raw := data[key].fields;
    assert "chunks_used" !in raw && "truncated" !in raw;
  }

  /** `set` on one key leaves what `get` returns for every other key unchanged. */
  lemma SetKeepsOthers(data: map<string, Value>, key: string, entry: CacheEntry, other: string)
    requires other != key
    ensures Lookup(data[key := Stored(entry)], other) == Lookup(data, other)
  {
    if other in data {
      assert data[key := Stored(entry)][other] == data[other];
    }
  }

  /** Setting the same entry twice leaves the same map as setting it once. */
  lemma SetIdempotent(data: map<string, Value>, key: string, entry: CacheEntry)
    ensures data[key := Stored(entry)][key := Stored(entry)] == data[key := Stored(entry)]
  {
  }

  /** A cache whose map is a field that `set` updates in place. */
  class SummaryCache {
    var data: map<string, Value>

    /** Creating the cache loads the file. */
    constructor(file: CacheFile)
      ensures data == Loaded(file)
    {
      data := Loaded(file);
    }

    /** `_load`: never fails; anything but a JSON object leaves the map empty. */
    method Load(file: CacheFile)
      modifies this
      ensures data == Loaded(file)
      ensures !(file.Parsed? && file.document.Object?) ==> data == map[]
    {
      if file.Parsed? && file.document.Object? {
        data := file.document.fields;
      } else {
        data := map[];
      }
    }

    /** `get`: a read-only lookup. */
    method Get(key: string) returns (r: Result<Option<CacheEntry>>)
      ensures r == Lookup(data, key)
    {
      r := Lookup(data, key);
    }

    /** `set`: overwrites the record under `key` and nothing else. */
    method Set(key: string, entry: CacheEntry)
      modifies this
      ensures data == old(data)[key := Stored(entry)]
      ensures forall k :: k != key ==> Lookup(data, k) == Lookup(old(data), k)
      ensures Lookup(data, key)
        == Ok(Some(CacheEntry(entry.content, if entry.chunksUsed < 1 then 1 else entry.chunksUsed, entry.truncated)))
    {
      data := data[key := Stored(entry)];
      SetThenGet(old(data), key, entry);
      forall k | k != key
        ensures Lookup(data, k) == Lookup(old(data), k)
      {
        SetKeepsOthers(old(data), key, entry, k);
      }
    }
  }
}
