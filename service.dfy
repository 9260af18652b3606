/**
 The catalogue service: resolves free text to enum members, runs the melody
 checks before a save, confirms existence before an update or a delete, and
 turns every absence the store reports into a typed not-found failure with a
 fixed message. Thrown exceptions become the failure variants of Result.
 */
module Service {
  import opened Wrappers
  import opened Text
  import opened Decimal
  import opened Enums
  import opened Model
  import opened Repository

  /** The outcome of a service call: a value, or the one failure it raises. */
  datatype Result<T> =
    | Ok(value: T)
    | NotFound(message: string)       // ResourceNotFoundException
    | InvalidFormat(message: string)  // FormatNotValidException
    | NullId                          // the store refuses a lookup by a null id

  /** The not-found messages: a fixed lead-in naming the lookup, then the
      text or the printed id that was searched for, which can be read back. */
  function CategoryNotFound(text: string): (r: string)
    ensures |r| == 32 + |text| && r[32..] == text
  {
    "Not found Category with value = " + text
  }

  function MelodyTypeNotFound(text: string): (r: string)
    ensures |r| == 35 + |text| && r[35..] == text
  {
    "Not found type Melody with value = " + text
  }

  function SongIdNotFound(id: int): (r: string)
    ensures |r| > 25 && IsLongText(r[25..]) && ParseLong(r[25..]) == id
  {
    var r := "Not found song with id = " + LongToString(id);
    LongToStringRoundTrip(id);
    assert r[25..] == LongToString(id);
    r
  }

  function MelodyIdNotFound(id: int): (r: string)
    ensures |r| > 32 && IsLongText(r[32..]) && ParseLong(r[32..]) == id
  {
    var r := "Not found song with melody id = " + LongToString(id);
    LongToStringRoundTrip(id);
    assert r[32..] == LongToString(id);
    r
  }

  const PitchMissing := "Melody : pitch ne doit pas \U{EA}tre null ou vide"
  const DurationMissing := "Melody : duration ne doit pas \U{EA}tre null ou vide"
  const TypeMissing := "Melody : type ne doit pas \U{EA}tre null"

  /** A not-found message names the one id that was searched for. */
  lemma SongIdNotFoundInjective(a: int, b: int)
    ensures SongIdNotFound(a) == SongIdNotFound(b) ==> a == b
  {
    var p := "Not found song with id = ";
    if SongIdNotFound(a) == SongIdNotFound(b) {
      assert LongToString(a) == SongIdNotFound(a)[|p|..];
      assert LongToString(b) == SongIdNotFound(b)[|p|..];
      LongToStringInjective(a, b);
    }
  }

  lemma MelodyIdNotFoundInjective(a: int, b: int)
    ensures MelodyIdNotFound(a) == MelodyIdNotFound(b) ==> a == b
  {
    var p := "Not found song with melody id = ";
    if MelodyIdNotFound(a) == MelodyIdNotFound(b) {
      assert LongToString(a) == MelodyIdNotFound(a)[|p|..];
      assert LongToString(b) == MelodyIdNotFound(b)[|p|..];
      LongToStringInjective(a, b);
    }
  }

  /** The not-found messages of the different lookups never coincide, so the
      message alone tells which lookup failed. */
  lemma NotFoundMessagesDistinct(text: string, typeText: string, id: int, melodyId: int)
    ensures CategoryNotFound(text) != MelodyTypeNotFound(typeText)
    ensures CategoryNotFound(text) != SongIdNotFound(id)
    ensures CategoryNotFound(text) != MelodyIdNotFound(melodyId)
    ensures MelodyTypeNotFound(typeText) != SongIdNotFound(id)
    ensures MelodyTypeNotFound(typeText) != MelodyIdNotFound(melodyId)
    ensures SongIdNotFound(id) != MelodyIdNotFound(melodyId)
  {
    assert CategoryNotFound(text)[10] == 'C' && MelodyTypeNotFound(typeText)[10] == 't';
    assert SongIdNotFound(id)[10] == 's' && MelodyIdNotFound(melodyId)[10] == 's';
    assert SongIdNotFound(id)[20] == 'i' && MelodyIdNotFound(melodyId)[20] == 'm';
  }

  /** The checks createSong makes before saving, in order: pitch has text,
      duration has text, type is set. The first failing check's message. */
  function MelodyFormatError(m: Melody): (r: Option<string>)
    ensures r.None? <==> HasText(m.pitch) && HasText(m.duration) && m.melodyType.Some?
    ensures !HasText(m.pitch) ==> r == Some(PitchMissing)
    ensures HasText(m.pitch) && !HasText(m.duration) ==> r == Some(DurationMissing)
    ensures HasText(m.pitch) && HasText(m.duration) && m.melodyType.None? ==> r == Some(TypeMissing)
    ensures r.Some? ==> r.value in {PitchMissing, DurationMissing, TypeMissing}
  {
    if !HasText(m.pitch) then Some(PitchMissing)
    else if !HasText(m.duration) then Some(DurationMissing)
    else if m.melodyType.None? then Some(TypeMissing)
    else None
  }

  /** On plain text, a melody meeting its declared constraints passes the
      service's checks. */
  lemma ValidMelodyPassesChecks(m: Melody)
    requires ValidMelody(m)
    requires forall i :: 0 <= i < |m.pitch.value| ==> (' ' <= m.pitch.value[i] <= '~')
    requires forall i :: 0 <= i < |m.duration.value| ==> (' ' <= m.duration.value[i] <= '~')
    ensures MelodyFormatError(m) == None
  {
    BlankRulesAgreeOnPlainText(m.pitch.value);
    BlankRulesAgreeOnPlainText(m.duration.value);
  }

  /** The service's checks are weaker than the declared constraints: a
      two-character pitch passes them, and so does a pitch of three NUL
      characters, which @NotBlank rejects. Conversely a pitch of three U+2000
      spaces meets @NotBlank but fails the service's pitch check. */
  lemma ChecksDifferFromConstraints()
    ensures var m := Melody(None, Some("ab"), Some("03:56"), Some(COLOR));
      MelodyFormatError(m) == None && !ValidMelody(m)
    ensures var m := Melody(None, Some("\U{0}\U{0}\U{0}"), Some("03:56"), Some(COLOR));
      MelodyFormatError(m) == None && !ValidMelody(m)
    ensures var m := Melody(None, Some("\U{2000}\U{2000}\U{2000}"), Some("03:56"), Some(COLOR));
      MelodyFormatError(m) == Some(PitchMissing) && ValidMelody(m)
  {
    ShortPitchIsInvalid();
    BlankRulesDisagree();
    var d := "03:56";
    assert !IsJavaWhitespace(d[0]) && d[0] > ' ';
    assert !IsJavaWhitespace("ab"[0]);
    var w := "\U{2000}\U{2000}\U{2000}";
    assert forall i :: 0 <= i < |w| ==> w[i] <= '\U{FFFF}';
  }

  /** The field copy updateSong makes onto the loaded record (title,
      description, artist, category, duration; never the melody). */
  function CopyScalars(found: Song, input: Song): (r: Song)
    ensures r.id == found.id && r.melody == found.melody
  {
    found.(title := input.title, description := input.description,
           artistName := input.artistName, category := input.category,
           duration := input.duration)
  }

  /** The copied record differs from the input only in its melody, so saving
      the input instead of the copy loses nothing but the loaded melody. */
  lemma CopyDiffersOnlyInMelody(found: Song, input: Song)
    requires found.id == input.id
    ensures CopyScalars(found, input) == input.(melody := found.melody)
    ensures found.melody == input.melody ==> CopyScalars(found, input) == input
  {
  }

  class SongService {
    const repo: SongStore

    constructor (repo: SongStore)
      ensures this.repo == repo
    {
      this.repo := repo;
    }

    /** getAllSongs: every stored song, possibly none. */
    function GetAllSongs(): (r: seq<Song>)
      reads repo
      requires repo.Valid()
      ensures forall s :: s in r <==> s in repo.songs.Values
      ensures |r| == |repo.songs|
      ensures Distinct(r)
      ensures repo.songs == map[] ==> r == []
    {
      repo.FindAll()
    }

    /** getSongsByCategory: text that names no category fails before the store
        is consulted; otherwise the songs of that category. */
    function GetSongsByCategory(text: string): (r: Result<seq<Song>>)
      reads repo
      requires repo.Valid()
      ensures r.Ok? || r.NotFound?
      ensures r.NotFound? <==> forall c: Category :: !EqualsIgnoreCase(CategoryName(c), text)
      ensures r.NotFound? ==> r.message == CategoryNotFound(text)
      ensures r.Ok? ==> exists c: Category :: (EqualsIgnoreCase(CategoryName(c), text)
        && forall s :: s in r.value <==> s in repo.songs.Values && s.category == c)
      ensures r.Ok? ==> Distinct(r.value)
    {
      match ResolveCategory(text)
      case None => NotFound(CategoryNotFound(text))
      case Some(c) => Ok(repo.FindSongsByCategory(c))
    }

    /** getSongsByArtistName: a plain pass-through; no failure. */
    function GetSongsByArtistName(artistName: string): (r: seq<Song>)
      reads repo
      requires repo.Valid()
      ensures forall s :: s in r <==> s in repo.songs.Values && s.artistName == artistName
      ensures Distinct(r)
    {
      repo.FindSongsByArtistName(artistName)
    }

    /** getSongsByMelodyId: the song owning that melody. */
    function GetSongsByMelodyId(melodyId: int): (r: Result<Song>)
      reads repo
      requires repo.Valid()
      ensures r.Ok? || r.NotFound?
      ensures r.Ok? <==> melodyId in MelodyIds(repo.songs)
      ensures r.Ok? ==> r.value in repo.songs.Values && r.value.melody.id == Some(melodyId)
      ensures r.NotFound? ==> r.message == MelodyIdNotFound(melodyId)
    {
      match repo.FindSongByMelodyId(melodyId)
      case None => NotFound(MelodyIdNotFound(melodyId))
      case Some(s) => Ok(s)
    }

    /** getSongsByMelodyType: as getSongsByCategory, for melody types. */
    function GetSongsByMelodyType(text: string): (r: Result<seq<Song>>)
      reads repo
      requires repo.Valid()
      ensures r.Ok? || r.NotFound?
      ensures r.NotFound? <==> forall t: MelodyType :: !EqualsIgnoreCase(MelodyTypeName(t), text)
      ensures r.NotFound? ==> r.message == MelodyTypeNotFound(text)
      ensures r.Ok? ==> exists t: MelodyType :: (EqualsIgnoreCase(MelodyTypeName(t), text)
        && forall s :: s in r.value <==> s in repo.songs.Values && s.melody.melodyType == Some(t))
      ensures r.Ok? ==> Distinct(r.value)
    {
      match ResolveMelodyType(text)
      case None => NotFound(MelodyTypeNotFound(text))
      case Some(t) => Ok(repo.FindSongsByMelodyType(t))
    }

    /** getSongById. */
    function GetSongById(id: int): (r: Result<Song>)
      reads repo
      requires repo.Valid()
      ensures r.Ok? || r.NotFound?
      ensures r.Ok? <==> id in repo.songs
      ensures r.Ok? ==> r.value == repo.songs[id] && r.value.id == Some(id)
      ensures r.NotFound? ==> r.message == SongIdNotFound(id)
    {
      match repo.FindById(id)
      case None => NotFound(SongIdNotFound(id))
      case Some(s) => Ok(s)
    }

    /** createSong: the melody checks, in order, then one save. A failed check
        leaves the store untouched. */
    method CreateSong(song: Song) returns (r: Result<Song>)
      requires repo.Valid()
      modifies repo
      ensures repo.Valid()
      ensures r.Ok? || r.InvalidFormat?
      ensures r.InvalidFormat? <==> MelodyFormatError(song.melody).Some?
      ensures r.InvalidFormat? ==> r.message == MelodyFormatError(song.melody).value && unchanged(repo)
      ensures r.Ok? ==> && r.value == Persisted(song, old(repo.songs), old(repo.nextId), old(repo.nextMelodyId))
                        && SameContent(r.value, song) && r.value.id.Some? && r.value.melody.id.Some?
                        && repo.songs == old(repo.songs)[r.value.id.value := r.value]
      ensures r.Ok? && !Overwrites(song, old(repo.songs)) ==>
        r.value.id == Some(old(repo.nextId)) && |repo.songs| == |old(repo.songs)| + 1
      ensures r.Ok? ==>
        && repo.nextId == (if Overwrites(song, old(repo.songs)) then old(repo.nextId) else old(repo.nextId) + 1)
        && repo.nextMelodyId == (if r.value.melody.id == Some(old(repo.nextMelodyId))
                                 then old(repo.nextMelodyId) + 1 else old(repo.nextMelodyId))
    {
      var error := MelodyFormatError(song.melody);
      if error.Some? {
        return InvalidFormat(error.value);
      }
      var saved := repo.Save(song);
      r := Ok(saved);
    }

    /** updateSong: confirm the id is stored, then save the INPUT song; the
        field copy onto the loaded record is made and discarded. */
    method UpdateSong(song: Song) returns (r: Result<Song>)
      requires repo.Valid()
      modifies repo
      ensures repo.Valid()
      ensures r.Ok? || r.NotFound? || r.NullId?
      ensures song.id.None? ==> r == NullId && unchanged(repo)
      ensures song.id.Some? && song.id.value !in old(repo.songs) ==>
        r == NotFound(SongIdNotFound(song.id.value)) && unchanged(repo)
      ensures song.id.Some? && song.id.value in old(repo.songs) ==>
        && r.Ok? && r.value.id == song.id && SameContent(r.value, song)
        && repo.songs == old(repo.songs)[song.id.value := r.value]
        && |repo.songs| == |old(repo.songs)|
      ensures (song.id.Some? && song.id.value in old(repo.songs)
        && song.melody.id == old(repo.songs)[song.id.value].melody.id) ==> r == Ok(song)
      ensures r.Ok? ==> r.value == Persisted(song, old(repo.songs), old(repo.nextId), old(repo.nextMelodyId))
      ensures r.Ok? ==>
        && repo.nextId == old(repo.nextId)
        && repo.nextMelodyId == (if r.value.melody.id == Some(old(repo.nextMelodyId))
                                 then old(repo.nextMelodyId) + 1 else old(repo.nextMelodyId))
    {
      if song.id.None? {
        return NullId;
      }
      var found := repo.FindById(song.id.value);
      if found.None? {
        return NotFound(SongIdNotFound(song.id.value));
      }
      var searched := CopyScalars(found.value, song);
      var saved := repo.Save(song);
      r := Ok(saved);
    }

    /** deleteSongById: confirm the id is stored, then delete the song and,
        with it, its melody. */
    method DeleteSongById(id: int) returns (r: Result<()>)
      requires repo.Valid()
      modifies repo
      ensures repo.Valid()
      ensures r.Ok? || r.NotFound?
      ensures id !in old(repo.songs) ==> r == NotFound(SongIdNotFound(id)) && unchanged(repo)
      ensures id in old(repo.songs) ==>
        && r == Ok(())
        && repo.songs == old(repo.songs) - {id}
        && |repo.songs| == |old(repo.songs)| - 1
        && MelodyIds(repo.songs) == MelodyIds(old(repo.songs)) - {old(repo.songs)[id].melody.id.value}
      ensures repo.nextId == old(repo.nextId) && repo.nextMelodyId == old(repo.nextMelodyId)
    {
      var found := repo.FindById(id);
      if found.None? {
        return NotFound(SongIdNotFound(id));
      }
      var existed := repo.DeleteById(id);
      r := Ok(());
    }
  }

  /** A created song is found again by its id, equal in every field. */
  method CreateThenGet(service: SongService, song: Song) returns (created: Result<Song>, fetched: Result<Song>)
    requires service.repo.Valid()
    modifies service.repo
    ensures created.Ok? ==> fetched == created
    ensures created.InvalidFormat? ==> unchanged(service.repo)
  {
    created := service.CreateSong(song);
    if created.Ok? {
      fetched := service.GetSongById(created.value.id.value);
    } else {
      fetched := created;
    }
  }

  /** After a delete, neither the song nor its melody can be found. */
  method DeleteThenGet(service: SongService, id: int) returns (deleted: Result<()>, fetched: Result<Song>, byMelody: Option<Result<Song>>)
    requires service.repo.Valid()
    modifies service.repo
    ensures fetched == NotFound(SongIdNotFound(id))
    ensures deleted.Ok? ==> byMelody.Some? && byMelody.value.NotFound?
  {
    var melodyId := if id in service.repo.songs then service.repo.songs[id].melody.id.value else 0;
    deleted := service.DeleteSongById(id);
    fetched := service.GetSongById(id);
    if deleted.Ok? {
      byMelody := Some(service.GetSongsByMelodyId(melodyId));
    } else {
      byMelody := None;
    }
  }
}
