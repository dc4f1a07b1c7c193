# Music library: catalog, playlist and cursor

A Dafny model of `MusicLibrary` (`scripts/music_library.py`). This is the part of the music player that keeps:

- the **catalog** (`full_library`): an insertion-ordered dictionary from each track's relative path to its list of tags;
- the **tag filter** (`tags`);
- the **active playlist** (`library`);
- the **cursor** (`current_index_song`);
- the **shuffle flag** (`is_rnd_flag`);
- the flag saying whether the stored JSON copy of the catalog is current (`_json_file_is_actual`).

Every method of the Python class reassigns these class-level fields. The model is a Dafny class, `Library.MusicLibrary`, with one field each and one method per Python method. Each method's `modifies` clause names the fields it may change, and its `ensures` clause ties the new state to specification functions:

- `ScanMerge`, `ChangeTags`, `Playlist`: the catalog and playlist functions.
- `NextIndex`, `BeforeIndex`, `PyIndex`: the cursor functions.

The lemmas beside those functions prove the properties the code promises.

Files:

- `wrappers.dfy` (`Wrappers`): `Option`, `NoDuplicates`, `IndexOf`.
- `paths.dfy` (`Paths`):
  - the extension test: `os.path.splitext(file)[1].lower()` checked against `music_exts`;
  - `\` → `/` normalisation of catalog keys;
  - `os.path.join`.
- `catalog.dfy` (`Catalogs`): the ordered catalog, the merge one directory scan performs, and the tag edits.
- `playlist.dfy` (`Playlists`): the tag-intersection filter that `do_library` applies in catalog order.
- `cursor.dfy` (`Cursor`): the index steps of `next` and `before`, exactly as written, and Python's list indexing.
- `music_library.dfy` (`Library`):
  - the class;
  - three client methods that replay scenarios and carry no contract: `ScanScenario`, `StoredTagsScenario` (the calls of `tests/test_start.py:87-122`) and `CursorScenario`.

How the model stands in for what it cannot see:

- **Directory walk.** The `os.walk` result is a sequence of `WalkFile(relPath, name)`, one per file, with the per-directory loop flattened. `relPath` is what `os.path.relpath(os.path.join(root, file), music_dir)` yields on the platform. `name` is the bare file name.
- **JSON file.** The file `info_music.json` is the field `infoFile: Option<Catalog>`: `None` while no file exists, otherwise the stored catalog. `json.dump` and `json.load` become a copy of the value.
- **Shuffle.** `random.shuffle` is a nondeterministic choice (`:|`) of any sequence with the same multiset.
- **Failed reads.** A read of `library[i]` that raises `IndexError` is a `None` result. The cursor stays wherever the method had already moved it.

Where the code behaves differently from what a reader might expect of a playlist cursor, the model follows the code:

- **`next` wraps one step late.** It resets the cursor only when the incremented value is `> len(library)`. From the last track it moves the cursor to `len`, and the read fails. The following `next` wraps to 0. The cursor therefore cycles through `n + 1` positions, and one `next` per cycle fails (`Cursor.NextPeriod`). A modulo-`n` cursor would instead stay in `0 .. n-1` and never fail on a non-empty playlist.
- **On an empty playlist, `before` still moves the cursor.** It moves the cursor to -1 and then fails. The cursor is then left at -1 rather than at 0.
- **`do_random(True)` does not rebuild the playlist.** It shuffles the current playlist in place and does not re-apply the tag filter.
- **Tags are lists, not sets.** They behave like sets only through `change_music_tags`. A stored file may hold duplicates, and removal then takes out only the first copy (`Catalogs.RemoveFirstCount`).
- **The scan returns nothing.** It writes the file itself when a key was added.

## Model

| member | source | states |
|---|---|---|
| Library.MusicLibrary.constructor | scripts/music_library.py:10-34 | The first construction sets the class defaults, then runs `read_dir_library` and `do_library`. The catalog becomes the stored one, or empty when there is no file; the file then holds the catalog. The playlist is every key in catalog order, the cursor is 0, the filter is empty, and the shuffle flag is off. |
| Library.MusicLibrary.FindMusicFiles | scripts/music_library.py:37-50 | The catalog becomes `ScanMerge` of the old catalog and the walk. If some music file has a new key, the file is rewritten with the new catalog and marked current. Otherwise the catalog, the file and the flag are all unchanged. |
| Library.MusicLibrary.CreateInfoFile | scripts/music_library.py:54-60 | The stored copy becomes the current catalog and is marked current, and nothing else changes. |
| Library.MusicLibrary.ReadDirLibrary | scripts/music_library.py:64-72 | The catalog becomes the stored catalog if a file exists, otherwise empty, and an empty file is then written. Afterwards the file and the catalog agree, and the flag says current. |
| Library.MusicLibrary.ChangeMusicTags | scripts/music_library.py:74-81 | `add` defaults to true, as in the source. The catalog becomes `ChangeTags(old, name, tag, add)`. The stored copy is marked out of date in every case, including the no-op cases. |
| Library.MusicLibrary.DoLibrary | scripts/music_library.py:84-90 | The playlist becomes `Playlist(catalog, filter)` and the cursor 0; the catalog is untouched. |
| Library.MusicLibrary.DoRandom | scripts/music_library.py:92-99 | `yes` defaults to true, as in the source. The shuffle flag becomes `yes` and the cursor 0. With `yes`, the playlist becomes a permutation of itself (same multiset). Without it, the playlist is rebuilt exactly as by `do_library`. |
| Library.MusicLibrary.Next | scripts/music_library.py:102-107 | The cursor becomes `NextIndex(k, len)`. From `k` with `k+1 < len` it moves to `k+1` and returns the joined path of that track. From `len-1` the cursor becomes `len` and the read fails. From `len` it wraps to 0 and returns the first track. On an empty playlist it always fails. The class invariant (cursor in `0 .. len` on a non-empty playlist) is kept. |
| Library.MusicLibrary.Before | scripts/music_library.py:110-115 | The cursor becomes `BeforeIndex(k, len)`. From `k > 0` it moves to `k-1` and returns that track. From 0 it wraps to `len-1` and returns the last track. On an empty playlist it fails. The class invariant is kept. |
| Paths.ExtensionSpec | scripts/music_library.py:42 | A file name has an extension exactly when it has a last dot with some character other than a dot before it, so a hidden file such as ".mp3" has none. |
| Paths.ExtensionShape | scripts/music_library.py:42 | An extension is a suffix of the name that starts with its only dot. |
| Paths.MusicFileExamples | scripts/music_library.py:18-43 | "test.mp3" and "Song.MP3" are kept, because the test is on the lower-cased extension. "cover.jpg" and ".mp3" are skipped. |
| Paths.NormalizeSpec | scripts/music_library.py:45 | A normalised key holds no backslash, keeps every other character, and is unchanged by a second normalisation. |
| Paths.Join | scripts/music_library.py:107 | `os.path.join(music_dir, p)` ends in `p`. It is `p` itself when `p` is absolute, and otherwise starts with the music directory. |
| Catalogs.ScanMergeValid | scripts/music_library.py:46-48 | A scan keeps the catalog a dictionary: keys unique, and exactly the listed keys are mapped. |
| Catalogs.ScanMergeExtends | scripts/music_library.py:46-48 | A scan removes nothing. The old keys stay first, in their old order, with their old tags. |
| Catalogs.ScanMergeKeys | scripts/music_library.py:40-48 | After a scan, a key is present exactly when it was present before or is the normalised path of a file with a known audio extension in the walk. Every new key has the tag list `[]`. |
| Catalogs.AddsNewSpec | scripts/music_library.py:46-47 | The scan's "new file found" condition holds exactly when some music file of the walk has a key the catalog lacks. |
| Catalogs.ScanMergeGrows | scripts/music_library.py:46-50 | A scan lengthens the catalog exactly when it finds a new key. Otherwise it returns the catalog unchanged, so the file is rewritten exactly when something was added. |
| Catalogs.ScanMergeIdempotent | scripts/music_library.py:40-50 | Scanning the same files again finds nothing new and leaves the catalog unchanged, so the second scan writes nothing. |
| Catalogs.RemoveFirstSplit | scripts/music_library.py:80 | `RemoveFirst(s, t)` cuts the list around the first occurrence of `t`, which is `list.remove(t)` when `t` is in `s`, the only case line 79 lets through. When `t` is absent `RemoveFirst` returns `s`, where Python would raise `ValueError`. |
| Catalogs.RemoveFirstCount | scripts/music_library.py:80 | `RemoveFirst(s, t)` takes exactly one copy of `t` out of the multiset when `t` is in `s` (the case line 79 lets through, and the one where it is `list.remove(t)`). When `t` is absent `RemoveFirst` takes nothing out; Python's `list.remove` would raise `ValueError` there. |
| Catalogs.RemoveFirstDistinct | scripts/music_library.py:80 | On a list without duplicates, removing `t` leaves exactly the other tags, still without duplicates. |
| Catalogs.EditTagsCount | scripts/music_library.py:77-80 | Adding makes the tag a member and adds one copy only when it was absent. Removing takes one copy out when there is one. |
| Catalogs.EditTagsSetSemantics | scripts/music_library.py:75-80 | On a list without duplicates, a tag edit is a set insertion or deletion, and no duplicate arises. |
| Catalogs.AddTagTwice | scripts/music_library.py:77-78 | Adding the same tag twice equals adding it once and leaves a single copy of a new tag. |
| Catalogs.ChangeTagsFrame | scripts/music_library.py:76-80 | A tag edit keeps the keys and their order and changes no entry other than `name`. An unknown name leaves the catalog unchanged, and the catalog stays well formed. |
| Playlists.SelectMembers | scripts/music_library.py:87-89 | A key is in the rebuilt list exactly when it is in the catalog and is selected: the filter is empty, or the key shares a tag with it. |
| Playlists.SelectNoDuplicates | scripts/music_library.py:87-89 | The rebuilt list contains no key twice. |
| Playlists.SelectOrdered | scripts/music_library.py:87-89 | The rebuilt list keeps catalog order: earlier entries come earlier in the catalog. |
| Playlists.SelectAll | scripts/music_library.py:88 | With an empty filter, every catalog key is selected. |
| Playlists.PlaylistSpec | scripts/music_library.py:84-90 | The playlist holds exactly the selected keys, once each, in catalog order. An empty filter gives the whole catalog in order. |
| Playlists.PlaylistRockExample | scripts/music_library.py:84-90 | The catalog {a.mp3: [], b.mp3: [rock]} with filter [rock] gives the playlist [b.mp3]. |
| Cursor.CursorBounds | scripts/music_library.py:102-113 | On a non-empty playlist, from a cursor in `0 .. n`, `next` leaves it in `0 .. n` and `before` in `0 .. n-1`. |
| Cursor.NextOutcome | scripts/music_library.py:102-107 | `next` reads the following track while there is one. From the last track it moves to `n` and the read fails. From `n` it reads the first track. On a non-empty playlist it fails exactly from the last track. On an empty playlist every read fails. |
| Cursor.BeforeOutcome | scripts/music_library.py:110-115 | `before` reads the preceding track, or the last track from 0. On a non-empty playlist it never fails from a cursor in `0 .. n`. |
| Cursor.BeforeOnEmpty | scripts/music_library.py:110-114 | On an empty playlist `before` moves the cursor from 0 to -1, and the read fails. |
| Cursor.NextIterSplit | scripts/music_library.py:102-105 | `a` calls of `next` followed by `b` more are `a + b` calls. |
| Cursor.NextRun | scripts/music_library.py:103-105 | Below the length, repeated `next` counts the cursor up by one each time; one more call from the length wraps it to 0. |
| Cursor.NextPeriod | scripts/music_library.py:103-105 | The cursor returns to its start after `n + 1` calls of `next`, not after `n`. |
| Cursor.StepsUndo | scripts/music_library.py:102-115 | From every track, `before` undoes `next`. From every track but the first, `next` undoes `before`; from the first, `before` then `next` lands one past the end. |

## Left out

- Library.MusicLibrary.DoRandom: states only that the new order is some permutation. It does not model the distribution of `random.shuffle` or its in-place swaps, because randomness is not modelled.
- Paths.Lower: folds only `A`-`Z`. Python's `str.lower` folds all of Unicode. No non-ASCII character lower-cases into the letters of the seven extensions, so the extension test gives the same answer.
- Paths.Join: models POSIX `posixpath.join` with `/`. The Windows `ntpath.join` rules (drives, `\`) are not modelled.
- Paths.Extension: models `os.path.splitext` for bare file names, which hold no separator. The walk supplies only such names.
- The singleton caching of `__new__` is left out. Later calls of `MusicLibrary()` return the same object and rerun nothing. Only the first construction is modelled, and the unused `current_track` attribute is omitted.
- The `volume` field is not modelled, because nothing in the class reads or writes it.
- File I/O is not modelled: `os.walk`, `os.path.exists`, `open`, `json.dump`/`json.load`, `print`. The file is an abstract stored value. A malformed or unreadable file, or one that is not a JSON object of string lists, is not modelled, so the constructor requires the stored catalog to be well formed.
- Concurrency is not modelled. The class fields are shared by the HTTP handlers and the end-of-track thread of the server, and the model treats calls as sequential.
- `scripts/lib_mpv_player.py` is not part of this model. It is a ctypes wrapper over libmpv, which cannot be seen, with an event-polling thread.
- `music_serwer.py` is not part of this model. It is an earlier revision that does not run, and its Flask routes and server-sent events are out of scope.
- `static/script.js` and `scripts/settings.py` are not part of this model. They hold browser UI, path constants and a socket-based address lookup.
- Not modelled, because the code does not contain them:
  - a command lock;
  - an event queue;
  - volume clamping;
  - selection of a track by name;
  - re-shuffling when `next` wraps.
