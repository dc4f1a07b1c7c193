/** The active playlist (`library`) that `do_library` derives from the
    catalog and the tag filter (`tags`). */
module Playlists {
  import opened Wrappers
  import opened Catalogs

  /** The test `do_library` applies to a track's tags `ts`: the filter is
      empty, or some tag of the track is in it. */
  predicate Selected(ts: seq<Tag>, filter: seq<Tag>) {
    filter == [] || exists t :: t in ts && t in filter
  }

  /** The selected keys of `order`, in the order of `order`. */
  function Select(order: seq<Path>, tags: map<Path, seq<Tag>>, filter: seq<Tag>): seq<Path>
    requires forall p :: p in order ==> p in tags
    decreases |order|
  {
    if order == [] then []
    else
      var p := order[|order| - 1];
      Select(order[..|order| - 1], tags, filter) + if Selected(tags[p], filter) then [p] else []
  }

  /** The playlist `do_library` builds from catalog `c` and filter `filter`. */
  function Playlist(c: Catalog, filter: seq<Tag>): seq<Path>
    requires c.Valid()
  {
    Select(c.order, c.tags, filter)
  }

  lemma {:induction false} SelectMembers(order: seq<Path>, tags: map<Path, seq<Tag>>, filter: seq<Tag>)
    requires forall p :: p in order ==> p in tags
    ensures forall p :: p in Select(order, tags, filter) <==> p in order && Selected(tags[p], filter)
    decreases |order|
  {
    if order != [] {
      var w := order[..|order| - 1];
      SelectMembers(w, tags, filter);
      assert order == w + [order[|order| - 1]];
    }
  }

  lemma {:induction false} SelectNoDuplicates(order: seq<Path>, tags: map<Path, seq<Tag>>, filter: seq<Tag>)
    requires forall p :: p in order ==> p in tags
    requires NoDuplicates(order)
    ensures NoDuplicates(Select(order, tags, filter))
    decreases |order|
  {
    if order != [] {
      var w, p := order[..|order| - 1], order[|order| - 1];
      SelectNoDuplicates(w, tags, filter);
      SelectMembers(w, tags, filter);
      assert p !in w;
    }
  }

  /** The first position of a key does not change when keys are appended. */
  lemma {:induction false} IndexOfAppend(s: seq<Path>, t: seq<Path>, x: Path)
    requires x in s
    ensures IndexOf(s + t, x) == IndexOf(s, x)
  {
    if s[0] != x {
      IndexOfAppend(s[1..], t, x);
      assert (s + t)[1..] == s[1..] + t;
    }
  }

  /** The selection lists keys in the order of `order`. */
  lemma {:induction false} SelectOrdered(order: seq<Path>, tags: map<Path, seq<Tag>>, filter: seq<Tag>)
    requires forall p :: p in order ==> p in tags
    requires NoDuplicates(order)
    ensures forall i, j :: 0 <= i < j < |Select(order, tags, filter)| ==>
      Select(order, tags, filter)[i] in order && Select(order, tags, filter)[j] in order &&
      IndexOf(order, Select(order, tags, filter)[i]) < IndexOf(order, Select(order, tags, filter)[j])
    decreases |order|
  {
    if order != [] {
      var w, p := order[..|order| - 1], order[|order| - 1];
      assert order == w + [p];
      var pw := Select(w, tags, filter);
      var r := Select(order, tags, filter);
      assert r == pw + if Selected(tags[p], filter) then [p] else [];
      assert NoDuplicates(w);
      SelectOrdered(w, tags, filter);
      SelectMembers(w, tags, filter);
      IndexOfUnique(order, |order| - 1);
      forall i, j | 0 <= i < j < |r|
        ensures r[i] in order && r[j] in order && IndexOf(order, r[i]) < IndexOf(order, r[j])
      {
        assert r[i] == pw[i] && r[i] in pw;
        IndexOfAppend(w, [p], r[i]);
        if j < |pw| {
          assert r[j] == pw[j] && r[j] in pw;
          IndexOfAppend(w, [p], r[j]);
        } else {
          assert r[j] == p;
        }
      }
    } else {
      assert Select(order, tags, filter) == [];
    }
  }

  /** With no filter every key is selected. */
  lemma {:induction false} SelectAll(order: seq<Path>, tags: map<Path, seq<Tag>>)
    requires forall p :: p in order ==> p in tags
    ensures Select(order, tags, []) == order
    decreases |order|
  {
    if order != [] {
      SelectAll(order[..|order| - 1], tags);
    }
  }

  /** The playlist holds exactly the catalog keys whose tags meet the
      filter, each once, in catalog order; an empty filter selects the whole
      catalog. */
  lemma PlaylistSpec(c: Catalog, filter: seq<Tag>)
    requires c.Valid()
    ensures forall p :: p in Playlist(c, filter) <==> p in c.tags && Selected(c.tags[p], filter)
    ensures NoDuplicates(Playlist(c, filter))
    ensures forall i, j :: 0 <= i < j < |Playlist(c, filter)| ==>
      Playlist(c, filter)[i] in c.order && Playlist(c, filter)[j] in c.order &&
      IndexOf(c.order, Playlist(c, filter)[i]) < IndexOf(c.order, Playlist(c, filter)[j])
    ensures filter == [] ==> Playlist(c, filter) == c.order
  {
    SelectMembers(c.order, c.tags, filter);
    SelectNoDuplicates(c.order, c.tags, filter);
    SelectOrdered(c.order, c.tags, filter);
    if filter == [] {
      SelectAll(c.order, c.tags);
    }
  }

  /** A catalog of an untagged "a.mp3" and a "b.mp3" tagged "rock", filtered
      by "rock", gives the playlist ["b.mp3"]. */
  lemma PlaylistRockExample()
    ensures Playlist(Catalog(["a.mp3", "b.mp3"], map["a.mp3" := [], "b.mp3" := ["rock"]]), ["rock"]) == ["b.mp3"]
  {
    var c := Catalog(["a.mp3", "b.mp3"], map["a.mp3" := [], "b.mp3" := ["rock"]]);
    assert c.Valid();
    assert c.order[..1] == ["a.mp3"] && c.order[..1][..0] == [];
    assert !Selected(c.tags["a.mp3"], ["rock"]);
    assert Select(["a.mp3"], c.tags, ["rock"]) == [];
    assert Selected(c.tags["b.mp3"], ["rock"]) by { assert "rock" in c.tags["b.mp3"]; }
  }
}
