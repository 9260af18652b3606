/**
 The song store (a JpaRepository of Song keyed by song id, with four derived
 finders). The stored table is a map from song id to Song; the two id
 sequences are counters. Deleting a song removes the melody it holds, so no
 melody survives its song.
 */
module Repository {
  import opened Wrappers
  import opened Enums
  import opened Model

  /** No song appears twice in ss. */
  predicate Distinct(ss: seq<Song>) {
    forall i, j | 0 <= i < j < |ss| :: ss[i] != ss[j]
  }

  /** Every stored song carries its own key as id. */
  predicate KeyedById(songs: map<int, Song>) {
    forall k | k in songs :: songs[k].id == Some(k)
  }

  /** The songs stored under ids lo, lo + 1, ..., hi - 1, in ascending id order;
      each once when the songs carry their keys as ids. */
  function Listing(songs: map<int, Song>, lo: int, hi: int): (r: seq<Song>)
    ensures forall s :: s in r <==> exists k :: lo <= k < hi && k in songs && songs[k] == s
    ensures KeyedById(songs) ==> Distinct(r)
    decreases hi - lo
  {
    if lo >= hi then []
    else
      var rest := Listing(songs, lo + 1, hi);
      if lo in songs then
        assert songs[lo] in [songs[lo]] + rest;
        assert KeyedById(songs) ==> forall s | s in rest :: s.id != Some(lo);
        [songs[lo]] + rest
      else rest
  }

  ghost function KeysBetween(songs: map<int, Song>, lo: int, hi: int): set<int> {
    set k | k in songs && lo <= k < hi
  }

  /** The listing holds one entry per stored id in range. */
  lemma {:induction false} ListingSize(songs: map<int, Song>, lo: int, hi: int)
    ensures |Listing(songs, lo, hi)| == |KeysBetween(songs, lo, hi)|
    decreases hi - lo
  {
    if lo >= hi {
      assert KeysBetween(songs, lo, hi) == {};
    } else {
      ListingSize(songs, lo + 1, hi);
      if lo in songs {
        assert KeysBetween(songs, lo, hi) == {lo} + KeysBetween(songs, lo + 1, hi);
      } else {
        assert KeysBetween(songs, lo, hi) == KeysBetween(songs, lo + 1, hi);
      }
    }
  }

  /** The songs of ss for which keep holds, in their original order; a list
      without repeats stays without repeats. */
  function Filter(ss: seq<Song>, keep: Song -> bool): (r: seq<Song>)
    ensures forall s :: s in r <==> s in ss && keep(s)
    ensures |r| <= |ss|
    ensures Distinct(ss) ==> Distinct(r)
  {
    if ss == [] then []
    else
      var rest := Filter(ss[1..], keep);
      assert Distinct(ss) ==> Distinct(ss[1..]) && ss[0] !in ss[1..];
      if keep(ss[0]) then [ss[0]] + rest else rest
  }

  /** The first song of ss whose melody carries the given id. */
  function FirstWithMelody(ss: seq<Song>, melodyId: int): (r: Option<Song>)
    ensures r.Some? ==> r.value in ss && r.value.melody.id == Some(melodyId)
    ensures r.None? ==> forall s :: s in ss ==> s.melody.id != Some(melodyId)
  {
    if ss == [] then None
    else if ss[0].melody.id == Some(melodyId) then Some(ss[0])
    else FirstWithMelody(ss[1..], melodyId)
  }

  /** The ids of the melodies held by stored songs. */
  function MelodyIds(songs: map<int, Song>): set<int> {
    set k | k in songs && songs[k].melody.id.Some? :: songs[k].melody.id.value
  }

  /** No two stored songs hold the same melody: a melody has one owner. */
  predicate MelodiesOwnedOnce(songs: map<int, Song>) {
    forall k1, k2 | k1 in songs && k2 in songs && songs[k1].melody.id == songs[k2].melody.id :: k1 == k2
  }

  /** Removing a song removes exactly its melody from the stored melodies. */
  lemma RemoveSongRemovesItsMelody(songs: map<int, Song>, id: int)
    requires MelodiesOwnedOnce(songs)
    requires id in songs && songs[id].melody.id.Some?
    ensures MelodyIds(songs - {id}) == MelodyIds(songs) - {songs[id].melody.id.value}
    ensures forall k | k in songs - {id} :: songs[k].melody.id != songs[id].melody.id
  {
    var m := songs[id].melody.id.value;
    var rest := songs - {id};
    forall x | x in MelodyIds(songs) - {m} ensures x in MelodyIds(rest) {
      var k :| k in songs && songs[k].melody.id.Some? && songs[k].melody.id.value == x;
      assert k in rest;
    }
  }

  /**
   The stored record for s: the input itself, with the ids the store assigns.
   A song with no id, or with an id that is not stored, is inserted under the
   next song id and its melody under the next melody id. A song whose id is
   stored overwrites that record; its melody keeps its id when it is the melody
   already held there, and is otherwise a new melody under the next melody id.
   Melodies are held by value, so a replaced melody is gone from the store.
   */
  function Persisted(s: Song, songs: map<int, Song>, nextId: int, nextMelodyId: int): (r: Song)
    ensures SameContent(r, s)
    ensures r.id.Some? && r.melody.id.Some?
    ensures Overwrites(s, songs) ==> r.id == s.id
    ensures !Overwrites(s, songs) ==> r.id == Some(nextId)
    ensures r.melody.id == s.melody.id || r.melody.id == Some(nextMelodyId)
    ensures Overwrites(s, songs) && s.melody.id.Some? && s.melody.id == songs[s.id.value].melody.id ==> r == s
  {
    if Overwrites(s, songs) then
      var keep := s.melody.id == songs[s.id.value].melody.id && s.melody.id.Some?;
      s.(melody := s.melody.(id := if keep then s.melody.id else Some(nextMelodyId)))
    else
      s.(id := Some(nextId), melody := s.melody.(id := Some(nextMelodyId)))
  }

  predicate Overwrites(s: Song, songs: map<int, Song>) {
    s.id.Some? && s.id.value in songs
  }

  class SongStore {
    var songs: map<int, Song>
    /** The next values of the song and melody id sequences. */
    var nextId: int
    var nextMelodyId: int

    /** Every stored song carries its own key as id and a melody id; ids come
        from the sequences, which only move forward; a melody has one owner. */
    ghost predicate Valid()
      reads this
    {
      && 1 <= nextId && 1 <= nextMelodyId
      && KeyedById(songs)
      && (forall k | k in songs :: 1 <= k < nextId)
      && (forall k | k in songs :: songs[k].melody.id.Some? && 1 <= songs[k].melody.id.value < nextMelodyId)
      && MelodiesOwnedOnce(songs)
    }

    constructor ()
      ensures Valid()
      ensures songs == map[] && nextId == 1 && nextMelodyId == 1
    {
      songs := map[];
      nextId := 1;
      nextMelodyId := 1;
    }

    /** findById. */
    function FindById(id: int): (r: Option<Song>)
      reads this
      requires Valid()
      ensures r.Some? <==> id in songs
      ensures r.Some? ==> r.value == songs[id] && r.value.id == Some(id)
    {
      if id in songs then Some(songs[id]) else None
    }

    /** findAll: every stored song once, in ascending id order. */
    function FindAll(): (r: seq<Song>)
      reads this
      requires Valid()
      ensures forall s :: s in r <==> s in songs.Values
      ensures |r| == |songs|
      ensures Distinct(r)
    {
      ListingSize(songs, 1, nextId);
      assert KeysBetween(songs, 1, nextId) == songs.Keys;
      var r := Listing(songs, 1, nextId);
      assert forall s :: s in songs.Values ==> s in r by {
        forall s | s in songs.Values ensures s in r {
          var k :| k in songs && songs[k] == s;
        }
      }
      r
    }

    /** findSongsByCategory. */
    function FindSongsByCategory(c: Category): (r: seq<Song>)
      reads this
      requires Valid()
      ensures forall s :: s in r <==> s in songs.Values && s.category == c
      ensures Distinct(r)
    {
      Filter(FindAll(), (s: Song) => s.category == c)
    }

    /** findSongsByArtistName. */
    function FindSongsByArtistName(artistName: string): (r: seq<Song>)
      reads this
      requires Valid()
      ensures forall s :: s in r <==> s in songs.Values && s.artistName == artistName
      ensures Distinct(r)
    {
      Filter(FindAll(), (s: Song) => s.artistName == artistName)
    }

    /** findSongsByMelody_Type. */
    function FindSongsByMelodyType(t: MelodyType): (r: seq<Song>)
      reads this
      requires Valid()
      ensures forall s :: s in r <==> s in songs.Values && s.melody.melodyType == Some(t)
      ensures Distinct(r)
    {
      Filter(FindAll(), (s: Song) => s.melody.melodyType == Some(t))
    }

    /** findSongByMelody_Id: the one song holding that melody, if any. */
    function FindSongByMelodyId(melodyId: int): (r: Option<Song>)
      reads this
      requires Valid()
      ensures r.Some? ==> r.value in songs.Values && r.value.melody.id == Some(melodyId)
      ensures r.None? <==> melodyId !in MelodyIds(songs)
      ensures forall k | k in songs && songs[k].melody.id == Some(melodyId) :: r == Some(songs[k])
    {
      var r := FirstWithMelody(FindAll(), melodyId);
      if r.Some? then
        var k :| k in songs && songs[k] == r.value;
        r
      else
        assert forall k | k in songs :: songs[k] in songs.Values;
        r
    }

    /** save / saveAndFlush: insert or overwrite, cascading to the melody. */
    method Save(s: Song) returns (saved: Song)
      requires Valid()
      modifies this
      ensures Valid()
      ensures saved == Persisted(s, old(songs), old(nextId), old(nextMelodyId))
      ensures songs == old(songs)[saved.id.value := saved]
      ensures nextId == if Overwrites(s, old(songs)) then old(nextId) else old(nextId) + 1
      ensures nextMelodyId == if saved.melody.id == Some(old(nextMelodyId)) then old(nextMelodyId) + 1 else old(nextMelodyId)
      ensures !Overwrites(s, old(songs)) ==> |songs| == |old(songs)| + 1
      ensures Overwrites(s, old(songs)) ==> |songs| == |old(songs)|
    {
      saved := Persisted(s, songs, nextId, nextMelodyId);
      var key := saved.id.value;
      var freshMelody := saved.melody.id == Some(nextMelodyId);
      if key == nextId {
        InsertGrowsByOne(songs, key, saved);
      } else {
        assert songs[key := saved].Keys == songs.Keys;
      }
      songs := songs[key := saved];
      if key == nextId {
        nextId := nextId + 1;
      }
      if freshMelody {
        nextMelodyId := nextMelodyId + 1;
      }
    }

    /** deleteById: removes the song and, with it, its melody. Returns false,
        changing nothing, when the id is not stored (the store reports that as
        an error). */
    method DeleteById(id: int) returns (existed: bool)
      requires Valid()
      modifies this
      ensures Valid()
      ensures existed <==> id in old(songs)
      ensures songs == old(songs) - {id}
      ensures existed ==> MelodyIds(songs) == MelodyIds(old(songs)) - {old(songs)[id].melody.id.value}
      ensures nextId == old(nextId) && nextMelodyId == old(nextMelodyId)
      ensures existed ==> |songs| == |old(songs)| - 1
    {
      existed := id in songs;
      if existed {
        RemoveSongRemovesItsMelody(songs, id);
        RemoveShrinksByOne(songs, id);
      }
      songs := songs - {id};
    }
  }

  /** Saving a new song adds exactly one entry to the store. */
  lemma InsertGrowsByOne(songs: map<int, Song>, key: int, s: Song)
    requires key !in songs
    ensures |songs[key := s]| == |songs| + 1
    ensures |songs[key := s] - {key}| == |songs|
  {
    assert songs[key := s] - {key} == songs;
  }

  /** Deleting a stored id removes exactly one entry from the store. */
  lemma RemoveShrinksByOne(songs: map<int, Song>, key: int)
    requires key in songs
    ensures |songs - {key}| == |songs| - 1
  {
    assert (songs - {key}).Keys == songs.Keys - {key};
  }
}
