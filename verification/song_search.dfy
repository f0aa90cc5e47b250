/** The song list page: the case-insensitive search over the loaded songs,
    the visibility filter sent with the song query, and the wording of the
    result count. */
module SongSearch {
  import opened Wrappers
  import opened Text

  /** A song row as the list page receives it. */
  datatype Song = Song(
    id: string,
    title: string,
    key: Option<string>,
    content: string,
    public: bool,
    createdBy: string,
    createdAt: string,
    updatedAt: string)

  /** The search predicate for a query already in lower case: the query
      occurs in the lower-cased title, content, or key (a key that is absent
      or empty is falsy and is not searched). */
  predicate Matches(song: Song, query: string)
    ensures query == "" ==> Matches(song, query)
    ensures Matches(song, query) && song.key.None? ==>
              Contains(ToLower(song.title), query) || Contains(ToLower(song.content), query)
  {
    Contains(ToLower(song.title), query)
    || Contains(ToLower(song.content), query)
    || (song.key.Some? && song.key.value != "" && Contains(ToLower(song.key.value), query))
  }

  /** `songs.filter(...)` with the search predicate, keeping order. */
  function KeepMatching(songs: seq<Song>, query: string): (r: seq<Song>)
    ensures |r| <= |songs|
    ensures forall s :: s in r ==> s in songs && Matches(s, query)
  {
    if |songs| == 0 then []
    else if Matches(songs[0], query) then [songs[0]] + KeepMatching(songs[1..], query)
    else KeepMatching(songs[1..], query)
  }

  /** The filtered list: every song for an empty query, otherwise the songs
      matching the lower-cased query. */
  function FilterSongs(songs: seq<Song>, searchQuery: string): (r: seq<Song>)
    ensures |r| <= |songs|
    ensures forall s :: s in r ==> s in songs && Matches(s, ToLower(searchQuery))
    ensures searchQuery == "" ==> r == songs
  {
    if searchQuery != "" then KeepMatching(songs, ToLower(searchQuery)) else songs
  }

  /** `xs` is `ys` with some elements dropped and the rest in their order. */
  predicate IsSubsequence<T(==)>(xs: seq<T>, ys: seq<T>)
    decreases |ys|
  {
    if |xs| == 0 then true
    else if |ys| == 0 then false
    else if xs[0] == ys[0] then IsSubsequence(xs[1..], ys[1..])
    else IsSubsequence(xs, ys[1..])
  }

  lemma {:induction false} SubsequenceLength<T>(xs: seq<T>, ys: seq<T>)
    requires IsSubsequence(xs, ys)
    ensures |xs| <= |ys|
    decreases |ys|
  {
    if |xs| > 0 {
      if xs[0] == ys[0] {
        SubsequenceLength(xs[1..], ys[1..]);
      } else {
        SubsequenceLength(xs, ys[1..]);
      }
    }
  }

  /** With an empty query the list is shown unfiltered. */
  lemma EmptyQueryKeepsAll(songs: seq<Song>)
    ensures FilterSongs(songs, "") == songs
  {
  }

  /** The result is an order-preserving sub-list of the songs, so never longer. */
  lemma {:induction false} FilterIsSubsequence(songs: seq<Song>, searchQuery: string)
    ensures IsSubsequence(FilterSongs(songs, searchQuery), songs)
    ensures |FilterSongs(songs, searchQuery)| <= |songs|
  {
    if searchQuery != "" {
      KeepMatchingIsSubsequence(songs, ToLower(searchQuery));
    } else {
      SubsequenceRefl(songs);
    }
    SubsequenceLength(FilterSongs(songs, searchQuery), songs);
  }

  lemma {:induction false} SubsequenceRefl<T>(xs: seq<T>)
    ensures IsSubsequence(xs, xs)
    decreases |xs|
  {
    if |xs| > 0 {
      SubsequenceRefl(xs[1..]);
    }
  }

  lemma {:induction false} KeepMatchingIsSubsequence(songs: seq<Song>, query: string)
    ensures IsSubsequence(KeepMatching(songs, query), songs)
    decreases |songs|
  {
    if |songs| > 0 {
      var r := KeepMatching(songs, query);
      KeepMatchingIsSubsequence(songs[1..], query);
      if Matches(songs[0], query) {
        assert r[0] == songs[0] && r[1..] == KeepMatching(songs[1..], query);
      } else if |r| > 0 && r[0] == songs[0] {
        assert false;
      }
    }
  }

  lemma {:induction false} KeepMatchingMembership(songs: seq<Song>, query: string, s: Song)
    ensures s in KeepMatching(songs, query) <==> s in songs && Matches(s, query)
    decreases |songs|
  {
    if |songs| > 0 {
      KeepMatchingMembership(songs[1..], query, s);
      assert songs == [songs[0]] + songs[1..];
    }
  }

  /** Whatever the query, a song is listed exactly when it is one of the
      songs and the lower-cased query occurs in its lower-cased title,
      content or key (an empty query occurs everywhere). */
  lemma FilterMembership(songs: seq<Song>, searchQuery: string, s: Song)
    ensures s in FilterSongs(songs, searchQuery)
        <==> s in songs && Matches(s, ToLower(searchQuery))
  {
    if searchQuery != "" {
      KeepMatchingMembership(songs, ToLower(searchQuery), s);
    } else {
      assert ToLower(searchQuery) == "";
    }
  }

  /** A song without a key is found only through its title or content. */
  lemma KeylessSongMatchedByTitleOrContent(songs: seq<Song>, searchQuery: string, s: Song)
    requires s.key.None?
    requires s in FilterSongs(songs, searchQuery)
    ensures Contains(ToLower(s.title), ToLower(searchQuery))
         || Contains(ToLower(s.content), ToLower(searchQuery))
  {
    FilterMembership(songs, searchQuery, s);
  }

  /** Searching for a query or for its lower-cased form lists the same songs. */
  lemma FilterIgnoresQueryCase(songs: seq<Song>, searchQuery: string)
    ensures FilterSongs(songs, ToLower(searchQuery)) == FilterSongs(songs, searchQuery)
  {
    ToLowerIdempotent(searchQuery);
    assert |ToLower(searchQuery)| == |searchQuery|;
  }

  // ---------------------------------------------------------------------------
  // Visibility filter and result count
  // ---------------------------------------------------------------------------

  const PublicOnly: string := "public.eq.true"
  const OwnPrefix: string := ",created_by.eq."

  /** The `or` filter of the song query: public songs, and the signed-in
      user's own songs when there is a user. */
  function VisibilityFilter(userId: Option<string>): (r: string)
    ensures IsPrefix(PublicOnly, r)
    ensures userId.None? ==> r == PublicOnly
    ensures userId.Some? ==> |r| == |PublicOnly| + |OwnPrefix| + |userId.value|
    ensures userId.Some? ==>
              r[|PublicOnly|..|PublicOnly| + |OwnPrefix|] == OwnPrefix
              && r[|PublicOnly| + |OwnPrefix|..] == userId.value
  {
    var r := PublicOnly + (if userId.Some? then OwnPrefix + userId.value else "");
    if userId.Some? then
      assert r[|PublicOnly|..] == OwnPrefix + userId.value;
      r
    else r
  }

  /** The filter always asks for public songs, mentions an owner only when a
      user is signed in, and tells different users apart. */
  lemma VisibilityFilterShape(u: Option<string>, v: Option<string>)
    ensures IsPrefix(PublicOnly, VisibilityFilter(u))
    ensures VisibilityFilter(u) == PublicOnly <==> u.None?
    ensures VisibilityFilter(u) == VisibilityFilter(v) ==> u == v
  {
    var f := VisibilityFilter(u);
    assert f[..|PublicOnly|] == PublicOnly;
    if VisibilityFilter(u) == VisibilityFilter(v) && u.Some? && v.Some? {
      var g := VisibilityFilter(v);
      var k := |PublicOnly + OwnPrefix|;
      assert f == (PublicOnly + OwnPrefix) + u.value;
      assert g == (PublicOnly + OwnPrefix) + v.value;
      assert f[k..] == u.value;
      assert g[k..] == v.value;
    }
  }

  /** The Polish noun after the count: singular only for exactly one. */
  function CountNoun(count: nat): (r: string)
    ensures r == "pieśń" <==> count == 1
    ensures r == "pieśni" <==> count != 1
  {
    if count == 1 then "pieśń" else "pieśni"
  }

  /** The text shown above the results while a query is entered. */
  function CountLabel(count: nat): (r: string)
    ensures IsPrefix("Znaleziono ", r)
    ensures |r| == |"Znaleziono "| + |NatToDecimal(count)| + 1 + |CountNoun(count)|
    ensures r[|"Znaleziono "|..|"Znaleziono "| + |NatToDecimal(count)|] == NatToDecimal(count)
    ensures r[|"Znaleziono "| + |NatToDecimal(count)|..] == " " + CountNoun(count)
  {
    var digits := NatToDecimal(count);
    var r := "Znaleziono " + digits + " " + CountNoun(count);
    assert r == "Znaleziono " + (digits + (" " + CountNoun(count)));
    assert r[|"Znaleziono "|..] == digits + (" " + CountNoun(count));
    r
  }

  /** The label ends in the singular noun exactly when one song was found,
      and in the plural noun otherwise. */
  lemma CountLabelNoun(count: nat)
    ensures CountNoun(count) == "pieśń" <==> count == 1
    ensures |CountLabel(count)| >= 5
    ensures CountLabel(count)[|CountLabel(count)| - 5..] == "pieśń" <==> count == 1
    ensures count != 1 ==> |CountLabel(count)| >= 6 && CountLabel(count)[|CountLabel(count)| - 6..] == "pieśni"
  {
    var l := CountLabel(count);
    if count == 1 {
      assert l == "Znaleziono 1 pieśń";
    } else {
      assert l[|l| - 5..] == "ieśni";
    }
  }

  /** Different counts give different labels: the count can be read back. */
  lemma CountLabelInjective(m: nat, n: nat)
    requires CountLabel(m) == CountLabel(n)
    ensures m == n
  {
    var dm, dn := NatToDecimal(m), NatToDecimal(n);
    var p := "Znaleziono ";
    var rm := dm + " " + CountNoun(m);
    var rn := dn + " " + CountNoun(n);
    assert CountLabel(m) == p + rm;
    assert CountLabel(n) == p + rn;
    assert rm == CountLabel(m)[|p|..] == rn;
    assert |dm| == |dn| by {
      if |dm| < |dn| {
        assert false;
      } else if |dn| < |dm| {
        assert false;
      }
    }
    assert dm == rm[..|dm|] == rn[..|dn|] == dn;
    DecimalRoundTrip(m);
    DecimalRoundTrip(n);
  }
}
