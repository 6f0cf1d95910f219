// The folder cache (MediaPlayer/CacheData.cpp): a map from a folder path to
// the time it was scanned and the files it held. Reading a cache file checks
// that it can be opened and holds a JSON object before the map is cleared
// and refilled from the object's members.

module CacheData {

  datatype Option<T> = None | Some(value: T)

  /** A QDateTime: either invalid (an unparsable ISO date) or a point in time. */
  datatype DateTime = InvalidDate | At(msSinceEpoch: int)

  /** CacheEntry */
  datatype CacheEntry = CacheEntry(timestamp: DateTime, files: seq<string>)

  /** One member of the cache file's root object, already read as a timestamp text and a list of file names. */
  datatype Member = Member(folder: string, timestamp: string, files: seq<string>)

  /** What opening and parsing the cache file gives. */
  datatype Document = CannotOpen | NotAnObject | Object(members: seq<Member>)

  /** The map readFromFile builds from the members, inserting them in order (a later member with the same folder wins). */
  function MapOf(members: seq<Member>, parseIsoDate: string -> DateTime): (m: map<string, CacheEntry>)
    ensures m.Keys == set i | 0 <= i < |members| :: members[i].folder
  {
    if members == [] then map[]
    else
      var last := members[|members| - 1];
      MapOf(members[..|members| - 1], parseIsoDate)[last.folder := CacheEntry(parseIsoDate(last.timestamp), last.files)]
  }

  /** The entry of every folder comes from the last member naming it. */
  lemma {:induction false} MapOfLastWins(members: seq<Member>, parseIsoDate: string -> DateTime, i: nat)
    requires i < |members|
    requires forall j :: i < j < |members| ==> members[j].folder != members[i].folder
    ensures MapOf(members, parseIsoDate)[members[i].folder] ==
            CacheEntry(parseIsoDate(members[i].timestamp), members[i].files)
  {
    if i < |members| - 1 {
      MapOfLastWins(members[..|members| - 1], parseIsoDate, i);
    }
  }

  /** CacheData::get on a map: the entry when the folder is present, null otherwise. */
  function Lookup(data: map<string, CacheEntry>, folder: string): (r: Option<CacheEntry>)
    ensures r.Some? <==> folder in data
    ensures r.Some? ==> r.value == data[folder]
  {
    if folder in data then Some(data[folder]) else None
  }

  /** After set(k, t, f), get(k) is {t, f}, and every other folder reads as before. */
  lemma SetThenGet(data: map<string, CacheEntry>, folder: string, timestamp: DateTime, files: seq<string>, other: string)
    ensures Lookup(data[folder := CacheEntry(timestamp, files)], folder) == Some(CacheEntry(timestamp, files))
    ensures other != folder ==> Lookup(data[folder := CacheEntry(timestamp, files)], other) == Lookup(data, other)
  {
  }

  class Cache {
    /** mData */
    var data: map<string, CacheEntry>

    constructor ()
      ensures data == map[]
    {
      data := map[];
    }

    /** CacheData::set: insert or replace the folder's entry. */
    method Set(folder: string, timestamp: DateTime, files: seq<string>)
      modifies this
      ensures data == old(data)[folder := CacheEntry(timestamp, files)]
    {
      data := data[folder := CacheEntry(timestamp, files)];
    }

    /** CacheData::get */
    function Get(folder: string): (r: Option<CacheEntry>)
      reads this
      ensures r.Some? <==> folder in data
      ensures r.Some? ==> r.value == data[folder]
    {
      Lookup(data, folder)
    }

    /**
     * CacheData::readFromFile: false, with the map untouched, when the file
     * cannot be opened or does not hold a JSON object; otherwise the map is
     * cleared and refilled from the members in order.
     */
    method ReadFromFile(doc: Document, parseIsoDate: string -> DateTime) returns (ok: bool)
      modifies this
      ensures ok <==> doc.Object?
      ensures !ok ==> data == old(data)
      ensures ok ==> data == MapOf(doc.members, parseIsoDate)
    {
      if doc.CannotOpen? {
        return false;
      }
      if !doc.Object? {
        return false;
      }
      var members := doc.members;
      data := map[];
      var i := 0;
      while i < |members|
        invariant 0 <= i <= |members|
        invariant data == MapOf(members[..i], parseIsoDate)
      {
        assert members[..i + 1][..i] == members[..i];
        var member := members[i];
        data := data[member.folder := CacheEntry(parseIsoDate(member.timestamp), member.files)];
        i := i + 1;
      }
      assert members[..i] == members;
      return true;
    }
  }
}
