# Song catalogue service — a Dafny model

This project models the core of a small song catalogue (a Spring Boot REST
service). Each Song owns exactly one Melody. The service layer
(`SongServiceImpl`) carries all the decision logic:

- it resolves free text to a song category or a melody type, ignoring case;
- it turns an absence reported by the store into a not-found failure with a fixed message;
- it checks three melody fields, in order, before it creates a song;
- it confirms that an id is stored before it updates or deletes.

The model has one module per concern:

- `Wrappers` (`wrappers.dfy`): `Option`.
- `Text` (`text.dfy`): the library string rules the core relies on.
  - Spring's `StringUtils.hasText` uses `Character.isWhitespace`.
  - Bean Validation's `@NotBlank` trims every character at or below U+0020.
  - `@Size` counts UTF-16 code units.
  - `String.equalsIgnoreCase` is modelled as `EqualsIgnoreCase`, with its folded form `Fold`.
- `Decimal` (`decimal.dfy`): `Long.toString`, used in the not-found messages, and its inverse.
- `Enums` (`enums.dfy`): `Category`, `MelodyType`, and `EnumUtils.getEnumIgnoreCase` as `FirstNamed`.
- `Model` (`model.dfy`): the `Melody` and `Song` records and the Melody field constraints (`ValidMelody`).
- `Repository` (`repository.dfy`): the store, as class `SongStore`.
  - Its state is a `map<int, Song>` plus the song-id and melody-id sequences, held as counters.
  - `save` and `deleteById` are methods.
  - `findById`, `findAll` and the four derived finders are functions.
  - A melody is held by value inside its song, so removing a song removes its melody.
- `Service` (`service.dfy`): the service, as class `SongService` over a `SongStore`.
  - The lookups are functions.
  - `createSong`, `updateSong` and `deleteSongById` are methods that change the store.
  - Thrown exceptions become the failure variants of `Result`: `NotFound(message)`, `InvalidFormat(message)` and `NullId`.

Update follows the code. The code at `SongServiceImpl.java:102` saves the
input object, melody included. The model follows the code: after a successful
update, the stored record is the input song, with a fresh melody id when the input's melody is not the stored one. `CopyScalars` models the field
copy onto the loaded record (lines 96-100). That copy is made and then thrown
away. `CopyDiffersOnlyInMelody` shows that it differs from the input only in
the melody.

## Model

| member | source | states |
|---|---|---|
| `Service.SongService.GetAllSongs` | src/main/java/com/rest/playlist/service/SongServiceImpl.java:32-34 | exactly the stored songs, each once (size equals the store's size); an empty store gives an empty list, not an error |
| `Service.SongService.GetSongsByCategory` | src/main/java/com/rest/playlist/service/SongServiceImpl.java:38-44 | NotFound iff the text matches no category name ignoring case, with message exactly "Not found Category with value = " + text and independent of the store; otherwise exactly the stored songs of the matched category, each once |
| `Service.SongService.GetSongsByArtistName` | src/main/java/com/rest/playlist/service/SongServiceImpl.java:48-50 | exactly the stored songs whose artist name equals the argument, each once; never fails |
| `Service.SongService.GetSongsByMelodyId` | src/main/java/com/rest/playlist/service/SongServiceImpl.java:54-57 | Ok iff some stored song holds a melody with that id, and then it is that song; otherwise NotFound "Not found song with melody id = " + id |
| `Service.SongService.GetSongsByMelodyType` | src/main/java/com/rest/playlist/service/SongServiceImpl.java:61-67 | NotFound iff the text matches no melody type name ignoring case, with message "Not found type Melody with value = " + text; otherwise exactly the stored songs whose melody has the matched type, each once |
| `Service.SongService.GetSongById` | src/main/java/com/rest/playlist/service/SongServiceImpl.java:71-74 | Ok iff the id is stored, and then the stored song, whose id is that id; otherwise NotFound "Not found song with id = " + id; reading never changes the store |
| `Service.MelodyFormatError` | src/main/java/com/rest/playlist/service/SongServiceImpl.java:78-86 | no error iff pitch has text, duration has text and type is set; a pitch failure wins over everything, a duration failure over a missing type; each of the three failures has its own fixed message |
| `Service.SongService.CreateSong` | src/main/java/com/rest/playlist/service/SongServiceImpl.java:77-88 | InvalidFormat with the first failing check's message and an unchanged store when a check fails; otherwise one save: the result keeps every input field, has a song id and a melody id, and is the only entry written; a song without a stored id gets the next id and grows the store by exactly one; the song-id sequence advances only for a new song and the melody-id sequence only when it hands out the melody's id |
| `Service.SongService.UpdateSong` | src/main/java/com/rest/playlist/service/SongServiceImpl.java:91-103 | null id gives NullId, and an unstored id gives NotFound "Not found song with id = " + id; both leave the store unchanged; otherwise only that id's entry changes, the store keeps its size, the stored record keeps the id and all input fields, and it is the persisted record: it equals the input whenever the input carries the song's own melody id, and otherwise the input with the next melody id; the song-id sequence does not move and the melody-id sequence advances only when it hands out the melody's id |
| `Service.SongService.DeleteSongById` | src/main/java/com/rest/playlist/service/SongServiceImpl.java:106-111 | an unstored id gives NotFound "Not found song with id = " + id with the store unchanged; otherwise exactly that entry is removed (size minus one) and exactly its melody leaves the stored melodies; neither id sequence moves, so a deleted id is never handed out again |
| `Service.CategoryNotFound` | src/main/java/com/rest/playlist/service/SongServiceImpl.java:41 | the fixed category lead-in followed by exactly the searched text |
| `Service.MelodyTypeNotFound` | src/main/java/com/rest/playlist/service/SongServiceImpl.java:64 | the fixed melody-type lead-in followed by exactly the searched text |
| `Service.SongIdNotFound` | src/main/java/com/rest/playlist/service/SongServiceImpl.java:73 | the fixed song-id lead-in followed by the printed id, which parses back to the id |
| `Service.MelodyIdNotFound` | src/main/java/com/rest/playlist/service/SongServiceImpl.java:56 | the fixed melody-id lead-in followed by the printed id, which parses back to the id |
| `Service.CopyScalars` | src/main/java/com/rest/playlist/service/SongServiceImpl.java:96-100 | the copy keeps the loaded record's id and melody |
| `Service.CopyDiffersOnlyInMelody` | src/main/java/com/rest/playlist/service/SongServiceImpl.java:96-102 | for a loaded record with the input's id, the copy is the input with the loaded melody, so saving the input instead loses only the loaded melody |
| `Service.SongIdNotFoundInjective` | src/main/java/com/rest/playlist/service/SongServiceImpl.java:73 | two song-id not-found messages are equal only for equal ids |
| `Service.MelodyIdNotFoundInjective` | src/main/java/com/rest/playlist/service/SongServiceImpl.java:56 | two melody-id not-found messages are equal only for equal ids |
| `Service.NotFoundMessagesDistinct` | src/main/java/com/rest/playlist/service/SongServiceImpl.java:41-73 | the category, melody-type, song-id and melody-id messages never coincide, for any texts and ids: all six pairs differ |
| `Service.ValidMelodyPassesChecks` | src/main/java/com/rest/playlist/model/Melody.java:24-36 | on printable ASCII text, a melody meeting its declared constraints passes the service's three checks |
| `Service.ChecksDifferFromConstraints` | src/main/java/com/rest/playlist/service/SongServiceImpl.java:78-83 | the service's checks and the declared constraints differ: a 2-character pitch and a pitch of three NULs pass the checks but break the constraints; a pitch of three U+2000 spaces meets the constraints but fails the pitch check |
| `Service.CreateThenGet` | src/test/java/com/rest/playlist/service/SongServiceIntegrationTest.java:113-147 | a created song is found again by its id with every field equal; a failed create leaves the store unchanged |
| `Service.DeleteThenGet` | src/test/java/com/rest/playlist/service/SongServiceIntegrationTest.java:177-183 | after a delete, a lookup by the id is NotFound; when the delete succeeded, a lookup by the removed song's melody id is NotFound too |
| `Enums.FirstNamed` | src/main/java/com/rest/playlist/service/SongServiceImpl.java:39 | the result is the first member, in declaration order, whose name equals the text ignoring case; None iff no member's name does |
| `Enums.FirstNamedRespectsFold` | src/main/java/com/rest/playlist/service/SongServiceImpl.java:39-40 | texts with the same case-folded form resolve to the same result |
| `Enums.ResolveCategory` | src/main/java/com/rest/playlist/service/SongServiceImpl.java:39 | Some iff some category name equals the text ignoring case, and then that category's name matches |
| `Enums.ResolveMelodyType` | src/main/java/com/rest/playlist/service/SongServiceImpl.java:62 | Some iff some melody type name equals the text ignoring case, and then that type's name matches |
| `Enums.ResolveCategoryIgnoresCase` | src/main/java/com/rest/playlist/service/SongServiceImpl.java:38-40 | texts equal ignoring case resolve to the same category or both fail |
| `Enums.ResolveMelodyTypeIgnoresCase` | src/main/java/com/rest/playlist/service/SongServiceImpl.java:61-63 | texts equal ignoring case resolve to the same melody type or both fail |
| `Enums.ResolveCategoryName` | src/main/java/com/rest/playlist/service/SongServiceImpl.java:39 | every category is resolved from its own name |
| `Enums.ResolveMelodyTypeName` | src/main/java/com/rest/playlist/model/Melody.java:33-36 | each of COLOR, BLENDS and DIRECTION is resolved from its own name |
| `Enums.ResolutionExamples` | src/test/java/com/rest/playlist/service/SongServiceIntegrationTest.java:67-111 | "POP" resolves to POP and "COLOR" to COLOR; "Popy", "popy", "COLORRS", "COLORRRR" and "DIRECTyyy" resolve to nothing |
| `Enums.CategoryCaseVariants` | src/main/java/com/rest/playlist/service/SongServiceImpl.java:39 | "pop" and "Pop" resolve to POP |
| `Enums.MelodyTypeCaseVariants` | src/main/java/com/rest/playlist/service/SongServiceImpl.java:62 | "color" resolves to COLOR and "Direction" to DIRECTION |
| `Text.EqualsIgnoreCaseIffSameFold` | src/main/java/com/rest/playlist/service/SongServiceImpl.java:62 | two strings are equal ignoring case iff their folded forms are equal |
| `Text.EqualsIgnoreCaseTransitive` | src/main/java/com/rest/playlist/service/SongServiceImpl.java:39 | equality ignoring case is transitive |
| `Text.HasText` | src/main/java/com/rest/playlist/service/SongServiceImpl.java:78-81 | text is present only when the string exists and is non-empty; a string made only of whitespace has no text |
| `Text.Utf16Length` | src/main/java/com/rest/playlist/model/Melody.java:26 | the UTF-16 length lies between the character count and twice it, and equals the character count on Basic Multilingual Plane text |
| `Text.BlankRulesAgreeOnPlainText` | src/main/java/com/rest/playlist/service/SongServiceImpl.java:78 | on printable ASCII, tabs and line breaks, hasText and @NotBlank agree in both directions |
| `Text.BlankRulesDisagree` | src/main/java/com/rest/playlist/model/Melody.java:25 | outside that range they disagree both ways: U+2000 is not blank but has no text; U+0000 has text but is blank |
| `Decimal.LongToString` | src/main/java/com/rest/playlist/service/SongServiceImpl.java:73 | an optional minus sign then digits; the sign appears exactly for negative ids; a non-negative id starts with 0 only when it is 0 |
| `Decimal.DigitsRoundTrip` | src/main/java/com/rest/playlist/service/SongServiceImpl.java:108 | parsing the decimal digits of n gives back n |
| `Decimal.LongToStringRoundTrip` | src/main/java/com/rest/playlist/service/SongServiceImpl.java:94 | the printed id is a well-formed, optionally negative decimal that parses back to the id |
| `Decimal.LongToStringInjective` | src/main/java/com/rest/playlist/service/SongServiceImpl.java:73 | distinct ids never print alike |
| `Model.ValidMelody` | src/main/java/com/rest/playlist/model/Melody.java:24-36 | a valid melody has a pitch of 2 to 50 characters (3 to 50 UTF-16 units, not blank), a non-empty duration and a type |
| `Model.SampleMelodyIsValid` | src/main/java/com/rest/playlist/model/Melody.java:24-36 | the sample melody ("Melody Pitch", "03:56", COLOR) meets every declared constraint |
| `Model.ShortPitchIsInvalid` | src/main/java/com/rest/playlist/model/Melody.java:26 | a 2-character pitch breaks the length constraint |
| `Model.BlankFieldsAreInvalid` | src/main/java/com/rest/playlist/model/Melody.java:25-34 | a blank pitch, a blank duration or a missing type each break the constraints |
| `Model.DurationIsOpaque` | src/main/java/com/rest/playlist/model/Melody.java:29-31 | replacing the duration of a valid melody by any non-blank text keeps it valid; no format is parsed |
| `Model.PitchLengthCountsUtf16Units` | src/main/java/com/rest/playlist/model/Melody.java:24-27 | 26 characters beyond the Basic Multilingual Plane make a pitch of 52 units, which breaks the 50-unit limit |
| `Model.Utf16LengthOfWide` | src/main/java/com/rest/playlist/model/Melody.java:26 | text made only of characters beyond the Basic Multilingual Plane has twice as many UTF-16 units as characters |
| `Repository.SongStore.FindById` | src/main/java/com/rest/playlist/repository/SongRepository.java:15 | present iff the id is stored, and then the stored song, which carries that id |
| `Repository.SongStore.FindAll` | src/test/java/com/rest/playlist/repository/SongRepositoryTest.java:61-68 | exactly the stored songs, each once, with one entry per stored id |
| `Repository.SongStore.FindSongsByCategory` | src/main/java/com/rest/playlist/repository/SongRepository.java:16 | exactly the stored songs whose category is c, each once |
| `Repository.SongStore.FindSongsByArtistName` | src/main/java/com/rest/playlist/repository/SongRepository.java:17 | exactly the stored songs whose artist name equals the argument, each once |
| `Repository.SongStore.FindSongByMelodyId` | src/main/java/com/rest/playlist/repository/SongRepository.java:18 | empty iff no stored melody has that id; otherwise the unique stored song holding it |
| `Repository.SongStore.FindSongsByMelodyType` | src/main/java/com/rest/playlist/repository/SongRepository.java:19 | exactly the stored songs whose melody type is t, each once |
| `Repository.SongStore.Save` | src/main/java/com/rest/playlist/repository/SongRepository.java:15 | the inherited save and saveAndFlush (called at SongServiceImpl.java:87 and :102), with the id sequences of Melody.java:19-22: keeps the store invariant (ids match keys, ids come from the sequences, a melody has one owner); writes exactly one entry, the persisted record; a new song grows the store by one, an overwrite keeps its size; advances each sequence only when it hands out an id |
| `Repository.SongStore.DeleteById` | src/main/java/com/rest/playlist/repository/SongRepository.java:15 | the inherited deleteById (called at SongServiceImpl.java:110), with the melody held by its song (Melody.java:38-40): keeps the invariant; removes exactly that entry, shrinking the store by one; reports whether it was stored; the removed song's melody leaves the stored melodies; the sequences do not move |
| `Repository.Persisted` | src/test/java/com/rest/playlist/repository/SongRepositoryTest.java:158-178 | the record keeps every input field; a stored id is kept (overwrite), otherwise the next song id is assigned; the melody id is the input's own or the next melody id; an overwrite carrying the song's own melody id stores the input unchanged |
| `Repository.Listing` | src/main/java/com/rest/playlist/repository/SongRepository.java:15 | exactly the songs stored under ids in the range; each once when every song carries its key as id |
| `Repository.ListingSize` | src/test/java/com/rest/playlist/repository/SongRepositoryTest.java:62-67 | the listing has one entry per stored id in the range |
| `Repository.Filter` | src/main/java/com/rest/playlist/repository/SongRepository.java:16-19 | exactly the songs of the input satisfying the condition, no more of them than the input has; an input without repeats gives an output without repeats |
| `Repository.FirstWithMelody` | src/main/java/com/rest/playlist/repository/SongRepository.java:18 | a song of the input holding that melody id, or none iff no song there holds it |
| `Repository.RemoveSongRemovesItsMelody` | src/main/java/com/rest/playlist/model/Melody.java:38-40 | when each melody has one owner, removing a song removes exactly its melody id, and no remaining song holds that melody |

## Left out

- HTTP routing, status codes and the framework's `@Valid` request validation (`SongResource.java`) are not part of this model. Neither are the Spring bootstrap and the `ISongService` interface. `FormatNotValidException` is folded into `Result.InvalidFormat`.
- Transactions, logging, auditing fields and JSON annotations are not modelled. Neither is the race between the existence check and the write in update and delete, which is a concurrency concern.
- Song-level rules (title and description length) are not modelled: the Song entity is not part of this model.
- Category has only POP and CLASSICAL: the category enum file is not part of this model. These are the members the catalogue's tests use.
- Null inputs are assumed away and not modelled: null lookup text, null path ids, and a song without a melody, which makes `createSong` throw a null-pointer error. The request validation that might refuse such a song is not part of this model.
- Ids are unbounded integers. The 64-bit range of `Long` and the exhaustion of the id sequences are not modelled.
- `Text.EqualsIgnoreCase`: folds only ASCII letters and the four characters that fold onto them (U+0130, U+0131, U+017F, U+212A). This is exact whenever one side is an ASCII enum name, which is the only use here. It is weaker than Java for other characters.
- Java strings may hold unpaired surrogates. Dafny characters cannot, so such strings are not modelled.
- `Repository.SongStore.FindAll`: lists songs in ascending id order. The database returns them in an unspecified order.
- `Repository.Persisted`: this rule stands in for the JPA merge. An unknown non-null id is inserted under a fresh id. A replaced melody gets a fresh melody id. The mapping code behind it is not part of this model.
- `Service.SongService.UpdateSong`: the stored record equals the input exactly only when the input carries the song's own melody id. Otherwise the store gives the input's melody a fresh id, per `Repository.Persisted`, and every other field still equals the input.
- `Repository.SongStore.Save`: never fails. The JPA store refuses two inputs that the model accepts. First, with a Bean Validation provider present, the insert or update is checked against the Melody constraints (`Melody.java:24-36`), so a melody that passes the service's checks but breaks them (the 2-character pitch of `ChecksDifferFromConstraints`) is rolled back. Second, saving a new song cascades a persist to its melody, which refuses a melody that already carries an id as a detached entity; the model gives that melody a fresh id instead. In both cases `createSong` (and, for the first, `updateSong`) returns Ok in the model where the store would fail.
- `Repository.SongStore.DeleteById`: for an id that is not stored, the store throws an exception. Here it returns `false` and changes nothing. The service never reaches this case.
- The derived finder `findSongByMelody_Id` throws when several songs match. That cannot happen under the one-owner invariant, so it is not modelled.
