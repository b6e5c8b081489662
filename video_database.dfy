/** The video catalog of video_database.py: one table `videos` keyed by
    `video_id`, with the filename, start time, the set of animals seen and
    the duration of each recording.

    The table is a map from id to row. An `sqlite3.Error` raised by the
    engine is the `dbError` argument of each operation; the generated UUID
    is the `newId` argument of an insert. */
module Catalog {
  import opened Wrappers

  /** The `animals` column as stored. The column holds NULL, or the text
      `str(animals)`, which `eval` reads back as the same Python value:
      a set of labels, or `None` when `str(None)` was stored. */
  datatype AnimalsColumn = Null | Text(value: Option<set<string>>)

  /** One row; the id is the key that maps to it. */
  datatype Row = Row(filename: string, timeStarted: int, animals: AnimalsColumn, duration: Option<int>)

  type Table = map<string, Row>

  /** `VideoEntry`: what a read hands back. */
  datatype VideoEntry = VideoEntry(id: string, filename: string, timeStarted: int,
                                   animals: Option<set<string>>, duration: Option<int>)

  /** What `insert_video` stores: `str(animals) if animals else None`, so
      both `None` and the empty set become NULL. */
  function InsertedAnimals(animals: Option<set<string>>): (c: AnimalsColumn)
    ensures c.Null? <==> (animals == None || animals == Some({}))
    ensures c.Text? ==> c.value == animals
  {
    if animals.Some? && animals.value != {} then Text(animals) else Null
  }

  /** `eval(row['animals']) if row['animals'] else None`: `None` comes back
      for NULL and for the stored text of `None`, and only for those. */
  function ReadAnimals(c: AnimalsColumn): (animals: Option<set<string>>)
    ensures animals.None? <==> c.Null? || c == Text(None)
  {
    match c
    case Null => None
    case Text(v) => v
  }

  /** The entry read back for row `id`. */
  function EntryOf(id: string, row: Row): (e: VideoEntry)
    ensures e.id == id && e.filename == row.filename && e.timeStarted == row.timeStarted
    ensures e.duration == row.duration && e.animals == ReadAnimals(row.animals)
  {
    VideoEntry(id, row.filename, row.timeStarted, ReadAnimals(row.animals), row.duration)
  }

  /** Reading a row: the entry when the id is present, `None` otherwise. */
  function Lookup(t: Table, id: string): (e: Option<VideoEntry>)
    ensures e.None? <==> id !in t
    ensures e.Some? ==> e.value == EntryOf(id, t[id])
  {
    if id in t then Some(EntryOf(id, t[id])) else None
  }

  /** A row update that sets one or more columns of row `id`, when it
      exists: every other row is left as it was, and an unknown id changes
      nothing. */
  function UpdateRow(t: Table, id: string, upd: Row -> Row): (t': Table)
    ensures t'.Keys == t.Keys
    ensures forall k :: k in t && k != id ==> t'[k] == t[k]
    ensures id in t ==> t'[id] == upd(t[id])
  {
    if id in t then t[id := upd(t[id])] else t
  }

  class VideoDatabase {
    /** The `videos` table. */
    var videos: Table

    /** Opens the catalog on a database file holding the rows `existing`
        (none for a new file); `CREATE TABLE IF NOT EXISTS` keeps them. */
    constructor (existing: Table)
      ensures videos == existing
    {
      videos := existing;
    }

    /** Adds a row under the new id and returns that id, the animals stored
        as NULL when there are none. When the engine fails, or the id is
        already taken (a PRIMARY KEY violation), it returns `None` and the
        table is rolled back unchanged. */
    method InsertVideo(newId: string, videoFilename: string, timeStarted: int,
                       animals: Option<set<string>> := None, duration: Option<int> := None,
                       dbError: bool := false)
      returns (videoId: Option<string>)
      modifies this
      ensures videoId.Some? <==> !dbError && newId !in old(videos)
      ensures videoId.Some? ==> videoId.value == newId && videoId.value !in old(videos)
      ensures videoId.Some? ==> videos == old(videos)[newId := Row(videoFilename, timeStarted, InsertedAnimals(animals), duration)]
      ensures videoId.None? ==> videos == old(videos)
    {
      if dbError || newId in videos {
        return None;
      }
      videos := videos[newId := Row(videoFilename, timeStarted, InsertedAnimals(animals), duration)];
      return Some(newId);
    }

    /** The entry for `videoId`, or `None` when there is no such row or the
        engine fails. */
    method GetVideo(videoId: string, dbError: bool := false) returns (entry: Option<VideoEntry>)
      ensures entry.Some? <==> !dbError && videoId in videos
      ensures entry.Some? ==> entry == Lookup(videos, videoId)
    {
      if dbError {
        return None;
      }
      if videoId in videos {
        return Some(EntryOf(videoId, videos[videoId]));
      }
      return None;
    }

    /** Overwrites the filename, animals, duration and start time of row
        `videoId`, keeping its id; the animals are stored as `str(animals)`. */
    method UpdateVideo(videoId: string, videoFilename: string, animals: Option<set<string>>,
                       duration: Option<int>, timeStarted: int, dbError: bool := false)
      modifies this
      ensures videos == if dbError then old(videos)
                        else UpdateRow(old(videos), videoId, (_: Row) => Row(videoFilename, timeStarted, Text(animals), duration))
    {
      if !dbError && videoId in videos {
        videos := videos[videoId := Row(videoFilename, timeStarted, Text(animals), duration)];
      }
    }

    /** Sets only the animals column of row `videoId`, to `str(animals)`,
        whatever `animals` is. */
    method UpdateVideoAnimals(videoId: string, animals: Option<set<string>>, dbError: bool := false)
      modifies this
      ensures videos == if dbError then old(videos)
                        else UpdateRow(old(videos), videoId, (r: Row) => r.(animals := Text(animals)))
    {
      if !dbError && videoId in videos {
        videos := videos[videoId := videos[videoId].(animals := Text(animals))];
      }
    }

    /** Sets only the duration column of row `videoId`. */
    method UpdateVideoDuration(videoId: string, duration: Option<int>, dbError: bool := false)
      modifies this
      ensures videos == if dbError then old(videos)
                        else UpdateRow(old(videos), videoId, (r: Row) => r.(duration := duration))
    {
      if !dbError && videoId in videos {
        videos := videos[videoId := videos[videoId].(duration := duration)];
      }
    }

    /** Removes row `videoId`, if present, and no other. */
    method DeleteVideo(videoId: string, dbError: bool := false)
      modifies this
      ensures dbError ==> videos == old(videos)
      ensures !dbError ==> videos.Keys == old(videos).Keys - {videoId}
      ensures forall k :: k in videos ==> videos[k] == old(videos)[k]
    {
      if !dbError {
        videos := videos - {videoId};
      }
    }

    /** One entry per row of the table, each row exactly once; `[]` when
        the engine fails. */
    method GetAllVideos(dbError: bool := false) returns (result: seq<VideoEntry>)
      ensures dbError ==> result == []
      ensures !dbError ==> |result| == |videos|
      ensures !dbError ==> forall id :: id in videos <==> exists i :: 0 <= i < |result| && result[i].id == id
      ensures forall i :: 0 <= i < |result| ==> result[i].id in videos && Lookup(videos, result[i].id) == Some(result[i])
      ensures forall i, j :: 0 <= i < j < |result| ==> result[i].id != result[j].id
    {
      if dbError {
        return [];
      }
      var rows := videos.Keys;
      result := [];
      while rows != {}
        invariant rows <= videos.Keys
        invariant |result| + |rows| == |videos|
        invariant forall i :: 0 <= i < |result| ==> result[i].id !in rows
        invariant forall id :: id in videos && id !in rows ==> exists i :: 0 <= i < |result| && result[i].id == id
        invariant forall i :: 0 <= i < |result| ==> result[i].id in videos && Lookup(videos, result[i].id) == Some(result[i])
        invariant forall i, j :: 0 <= i < j < |result| ==> result[i].id != result[j].id
        decreases rows
      {
        var id :| id in rows;
        var row := videos[id];
        ghost var before := result;
        result := result + [EntryOf(id, row)];
        rows := rows - {id};
        forall k | k in videos && k !in rows ensures exists i :: 0 <= i < |result| && result[i].id == k {
          if k == id {
            assert result[|result| - 1].id == k;
          } else {
            var i :| 0 <= i < |before| && before[i].id == k;
            assert result[i].id == k;
          }
        }
      }
    }
  }

  // ---------------------------------------------------------------------
  // Round trips through the table

  /** An insert followed by a read gives back what was inserted, except
      that no animals, or an empty set of them, reads back as `None`. */
  lemma InsertThenLookup(t: Table, id: string, filename: string, timeStarted: int,
                         animals: Option<set<string>>, duration: Option<int>)
    ensures var e := Lookup(t[id := Row(filename, timeStarted, InsertedAnimals(animals), duration)], id);
            && e.Some? && e.value.id == id && e.value.filename == filename
            && e.value.timeStarted == timeStarted && e.value.duration == duration
            && e.value.animals == (if animals == Some({}) then None else animals)
  {
  }

  /** After `update_video_animals`, a read gives back exactly the value
      passed in: an empty set reads back as the empty set, not as `None`. */
  lemma UpdateAnimalsThenLookup(t: Table, id: string, animals: Option<set<string>>)
    requires id in t
    ensures var e := Lookup(UpdateRow(t, id, (r: Row) => r.(animals := Text(animals))), id);
            && e.Some? && e.value.animals == animals
            && e.value.filename == t[id].filename && e.value.timeStarted == t[id].timeStarted
            && e.value.duration == t[id].duration
  {
  }

  /** The asymmetry between the two writes: inserting with an empty set
      reads back `None`, updating with it reads back the empty set. */
  lemma EmptyAnimalsAsymmetry(t: Table, id: string, filename: string, timeStarted: int)
    ensures Lookup(t[id := Row(filename, timeStarted, InsertedAnimals(Some({})), None)], id).value.animals == None
    ensures var t' := t[id := Row(filename, timeStarted, InsertedAnimals(Some({})), None)];
            Lookup(UpdateRow(t', id, (r: Row) => r.(animals := Text(Some({})))), id).value.animals == Some({})
  {
  }
}
