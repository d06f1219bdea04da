/**
 * The extraction cache repository: rows of the `extraction_cache` table,
 * written by `create` and read by `findByFileTextAndExtractionKey`, always
 * scoped to the session chosen when the repository is built.
 */
module ExtractionCache {
  import opened Values

  /** One row of the `extraction_cache` table. */
  datatype CacheRow = CacheRow(
    id: nat,
    sessionId: string,
    fileHash: string,
    extractionKey: string,
    extractedData: string)

  const NUL: char := '\0'

  /** `str.replace(/\0/g, '')`: every NUL removed, every other character kept. */
  function Sanitize(s: string): (r: string)
    ensures multiset(r) == multiset(s)[NUL := 0]
    ensures NUL !in r
    ensures NUL !in s ==> r == s
  {
    if s == [] then []
    else
      assert s == [s[0]] + s[1..];
      if s[0] == NUL then Sanitize(s[1..]) else [s[0]] + Sanitize(s[1..])
  }

  /** Sanitising works character by character, so it keeps the order of what it keeps. */
  lemma {:induction false} SanitizeConcat(a: string, b: string)
    ensures Sanitize(a + b) == Sanitize(a) + Sanitize(b)
  {
    if a == [] {
      assert a + b == b;
    } else {
      assert (a + b)[0] == a[0];
      assert (a + b)[1..] == a[1..] + b;
      SanitizeConcat(a[1..], b);
    }
  }

  /** A string is left alone exactly when it holds no NUL, so sanitising twice is sanitising once. */
  lemma SanitizeFixedPoint(s: string)
    ensures Sanitize(s) == s <==> NUL !in s
    ensures Sanitize(Sanitize(s)) == Sanitize(s)
  {
  }

  /** The stored text of a value: a string as it is, anything else through `stringify`, then sanitised. */
  function SerializeExtractedData(stringify: Json -> string, data: Json): (r: string)
    ensures data.JString? ==> r == Sanitize(data.s)
    ensures !data.JString? ==> r == Sanitize(stringify(data))
    ensures NUL !in r
    ensures data.JString? && NUL !in data.s ==> r == data.s
  {
    var jsonString := if data.JString? then data.s else stringify(data);
    Sanitize(jsonString)
  }

  /** The filter of a lookup: this session, this document fingerprint, this field key. */
  predicate Matches(row: CacheRow, session: string, fileHash: string, key: string)
  {
    row.sessionId == session && row.fileHash == fileHash && row.extractionKey == key
  }

  predicate HasMatch(rows: seq<CacheRow>, session: string, fileHash: string, key: string)
  {
    exists row :: row in rows && Matches(row, session, fileHash, key)
  }

  /** The row a lookup returns: the earliest matching one, or none when no row matches. */
  function FirstMatch(rows: seq<CacheRow>, session: string, fileHash: string, key: string): (r: Option<CacheRow>)
    ensures r.None? <==> !HasMatch(rows, session, fileHash, key)
    ensures r.Some? ==> r.value in rows && Matches(r.value, session, fileHash, key)
  {
    if rows == [] then None
    else if Matches(rows[0], session, fileHash, key) then Some(rows[0])
    else
      assert forall row :: row in rows ==> row == rows[0] || row in rows[1..];
      FirstMatch(rows[1..], session, fileHash, key)
  }

  /** Rows appended later never change a lookup that already hits. */
  lemma {:induction false} FirstMatchExtend(rows: seq<CacheRow>, more: seq<CacheRow>, session: string, fileHash: string, key: string)
    requires HasMatch(rows, session, fileHash, key)
    ensures FirstMatch(rows + more, session, fileHash, key) == FirstMatch(rows, session, fileHash, key)
  {
    assert (rows + more)[0] == rows[0];
    if !Matches(rows[0], session, fileHash, key) {
      assert (rows + more)[1..] == rows[1..] + more;
      var row :| row in rows && Matches(row, session, fileHash, key);
      assert row in rows[1..];
      FirstMatchExtend(rows[1..], more, session, fileHash, key);
    }
  }

  /** An id larger than every id in `rows`: the stand-in for a fresh uuid. */
  function FreshId(rows: seq<CacheRow>): (id: nat)
    ensures forall row :: row in rows ==> row.id < id
  {
    if rows == [] then 0
    else
      var rest := FreshId(rows[1..]);
      assert forall row :: row in rows ==> row == rows[0] || row in rows[1..];
      if rows[0].id < rest then rest else rows[0].id + 1
  }

  class ExtractionCacheRepository {
    /** Chosen once, when the repository is built (`v4()` in the source). */
    const sessionId: string
    /** The sha256 hex digest of a document text. */
    const hash: string -> string
    /** `JSON.stringify`. */
    const stringify: Json -> string
    /** The `extraction_cache` table. */
    var rows: seq<CacheRow>
    /** The next row id; every id in the table is smaller. */
    var nextId: nat

    /** Ids handed out are fresh, and no stored text holds a NUL (the table's text columns refuse it). */
    ghost predicate Valid()
      reads this
    {
      && (forall row :: row in rows ==> row.id < nextId)
      && (forall row :: row in rows ==> NUL !in row.extractedData)
    }

    constructor (sessionId: string, hash: string -> string, stringify: Json -> string, table: seq<CacheRow>)
      requires forall row :: row in table ==> NUL !in row.extractedData
      ensures Valid()
      ensures this.sessionId == sessionId && this.hash == hash && this.stringify == stringify
      ensures rows == table
    {
      this.sessionId := sessionId;
      this.hash := hash;
      this.stringify := stringify;
      rows := table;
      nextId := FreshId(table);
    }

    /** The document fingerprint: the digest of the text alone, whatever the session or key. */
    function HashFileContent(fileContent: string): string
    {
      hash(fileContent)
    }

    /** True when a lookup of `(fileText, key)` in this session hits. */
    ghost predicate Cached(fileText: string, key: string)
      reads this
    {
      HasMatch(rows, sessionId, HashFileContent(fileText), key)
    }

    /**
     * Appends one row under this session and the text's fingerprint, holding the
     * serialised data, with a fresh id; it never checks for an existing entry.
     */
    method Create(fileText: string, extractionKey: string, extractedData: Json) returns (row: CacheRow)
      requires Valid()
      modifies this
      ensures Valid()
      ensures row.sessionId == sessionId && row.fileHash == HashFileContent(fileText)
      ensures row.extractionKey == extractionKey
      ensures row.extractedData == SerializeExtractedData(stringify, extractedData)
      ensures forall earlier :: earlier in old(rows) ==> earlier.id != row.id
      ensures rows == old(rows) + [row]
      ensures Cached(fileText, extractionKey)
    {
      var sanitizedData := SerializeExtractedData(stringify, extractedData);
      row := CacheRow(nextId, sessionId, HashFileContent(fileText), extractionKey, sanitizedData);
      rows := rows + [row];
      nextId := nextId + 1;
      assert row in rows;
    }

    /** The lookup: the earliest row of this session, fingerprint and key, or none. */
    method FindByFileTextAndExtractionKey(fileText: string, extractionKey: string) returns (found: Option<CacheRow>)
      ensures found == FirstMatch(rows, sessionId, HashFileContent(fileText), extractionKey)
      ensures found.None? <==> !Cached(fileText, extractionKey)
      ensures found.Some? ==> found.value in rows && Matches(found.value, sessionId, HashFileContent(fileText), extractionKey)
    {
      var fileHash := HashFileContent(fileText);
      var i := 0;
      while i < |rows|
        invariant 0 <= i <= |rows|
        invariant FirstMatch(rows[i..], sessionId, fileHash, extractionKey) == FirstMatch(rows, sessionId, fileHash, extractionKey)
      {
        if Matches(rows[i], sessionId, fileHash, extractionKey) {
          return Some(rows[i]);
        }
        assert rows[i..][1..] == rows[i + 1..];
        i := i + 1;
      }
      return None;
    }
  }

  /** A lookup right after `create` with the same text and key hits, whatever the table held. */
  lemma CreateThenFound(rows: seq<CacheRow>, row: CacheRow, session: string, fileHash: string, key: string)
    requires row.sessionId == session && row.fileHash == fileHash && row.extractionKey == key
    ensures FirstMatch(rows + [row], session, fileHash, key).Some?
  {
    assert row in rows + [row];
  }
}
