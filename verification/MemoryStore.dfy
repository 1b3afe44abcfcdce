/** The shared rows every write call works on, and the three repository statements that touch them. */
module MemoryStore {
  import opened Wrappers
  import opened Content
  import opened Dedup

  /** uuid.New never repeats: an identifier says which call and slot minted it. */
  datatype Id = Seeded(n: nat) | Minted(call: nat, slot: nat)

  /** `hash` is the stored property; a row older than the property holds "". */
  datatype Row = Row(project: string, kind: MemoryType, content: string, hash: string)

  type Rows = map<Id, Row>

  datatype ContentKey = ContentKey(hash: string, kind: MemoryType)
  datatype Hit = Hit(id: Id, content: string)
  datatype SwapResult = Refused | NotUpdated | Updated

  function Created(lex: Lexicon, rows: Rows, id: Id, project: string, kind: MemoryType, content: string): Rows {
    rows[id := Row(project, kind, content, lex.Hash(content))]
  }

  predicate Swappable(rows: Rows, id: Id, expected: string) {
    IsContentHash(expected) && id in rows && rows[id].hash == expected
  }

  function Swapped(lex: Lexicon, rows: Rows, id: Id, expected: string, content: string): Rows {
    if Swappable(rows, id, expected)
    then rows[id := rows[id].(content := content, hash := lex.Hash(content))]
    else rows
  }

  predicate Matches(lex: Lexicon, rows: Rows, project: string, hashes: seq<string>, id: Id) {
    && id in rows && rows[id].project == project && rows[id].hash != "" && rows[id].hash in hashes
    && lex.Hash(rows[id].content) != ""
  }

  function KeyOf(lex: Lexicon, row: Row): ContentKey {
    ContentKey(lex.Hash(row.content), row.kind)
  }

  /** Every answer is a matching row of the project, filed under what it says now. */
  predicate SoundLookup(lex: Lexicon, rows: Rows, project: string, hashes: seq<string>, found: map<ContentKey, Hit>) {
    forall key | key in found ::
      var id := found[key].id;
      Matches(lex, rows, project, hashes, id) && found[key].content == rows[id].content && key == KeyOf(lex, rows[id])
  }

  /** Every matching row's key is answered. */
  predicate CompleteLookup(lex: Lexicon, rows: Rows, project: string, hashes: seq<string>,
                           found: map<ContentKey, Hit>)
  {
    forall id | id in rows && Matches(lex, rows, project, hashes, id) :: KeyOf(lex, rows[id]) in found
  }

  class Store {
    var rows: Rows

    constructor ()
      ensures rows == map[]
    {
      rows := map[];
    }

    method CreateMemory(lex: Lexicon, id: Id, project: string, kind: MemoryType, content: string)
      modifies this
      ensures rows == Created(lex, old(rows), id, project, kind, content)
    {
      rows := rows[id := Row(project, kind, content, lex.Hash(content))];
    }

    /** Replaces a row's text only while it still holds the text the caller decided on. */
    method UpdateMemoryContent(lex: Lexicon, id: Id, expected: string, content: string) returns (r: SwapResult)
      modifies this
      ensures rows == Swapped(lex, old(rows), id, expected, content)
      ensures r == Updated <==> Swappable(old(rows), id, expected)
      ensures r == Refused <==> !IsContentHash(expected)
    {
      if !IsContentHash(expected) {
        return Refused;
      }
      if id in rows && rows[id].hash == expected {
        rows := rows[id := rows[id].(content := content, hash := lex.Hash(content))];
        return Updated;
      }
      return NotUpdated;
    }

    /** None when a value that is no fingerprint would reach the query text. */
    method FindByContentHash(lex: Lexicon, project: string, hashes: seq<string>)
        returns (r: Option<map<ContentKey, Hit>>)
      ensures r == None <==> project != "" && exists h :: h in hashes && h != "" && !IsContentHash(h)
      ensures r.Some? ==> SoundLookup(lex, rows, project, hashes, r.value)
      ensures r.Some? && project != "" ==> CompleteLookup(lex, rows, project, hashes, r.value)
    {
      if project == "" || hashes == [] {
        return Some(map[]);
      }
      for i := 0 to |hashes|
        invariant forall k | 0 <= k < i :: hashes[k] == "" || IsContentHash(hashes[k])
      {
        if hashes[i] != "" && !IsContentHash(hashes[i]) {
          return None;
        }
      }
      var found: map<ContentKey, Hit> := map[];
      var todo := rows.Keys;
      while todo != {}
        invariant todo <= rows.Keys
        invariant SoundLookup(lex, rows, project, hashes, found)
        invariant forall id | id in rows.Keys - todo && Matches(lex, rows, project, hashes, id) ::
          KeyOf(lex, rows[id]) in found
        decreases todo
      {
        var id :| id in todo;
        todo := todo - {id};
        var key := KeyOf(lex, rows[id]);
        var row := rows[id];
        if row.project == project && row.hash != "" && row.hash in hashes && key.hash != "" && key !in found {
          found := found[key := Hit(id, rows[id].content)];
        }
      }
      return Some(found);
    }
  }
}
