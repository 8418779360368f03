/**
 * The saved collection: rating records keyed by normalized album name.
 * A JavaScript object enumerates its string keys in insertion order, and
 * the listings, tie-breaks and first-seen rules depend on that order, so
 * the collection is an association list with distinct keys, read as a map
 * through `Lookup`.
 */
module Records {
  import opened Wrappers

  /** A stored rating: a number, or one of the sentinels "S" (skip) and "I" (interlude). */
  datatype Rating = Numeric(r: real) | S | I

  /** `parseFloat(rating)`: the sentinels parse to NaN. */
  function RatingValue(rating: Rating): (v: Parsed<real>)
    ensures v.Num? <==> rating.Numeric?
    ensures v.Num? ==> v.value == rating.r
  {
    if rating.Numeric? then Num(rating.r) else NaN
  }

  /**
   * One saved rating. Text fields hold "" where the value is empty or
   * absent (both are falsy to the code that reads them). `displayName` is
   * never written by the save path but is read by the acronym map.
   */
  datatype AlbumRecord = AlbumRecord(
    rating: Rating,
    avgSong: real,
    lyricism: real,
    instrumentation: real,
    vibe: real,
    skips: int,
    artist: string,
    genre: string,
    releaseDate: string,
    cover: string,
    spotifyURL: string,
    songs: map<string, string>,
    displayName: string)

  /** The eight values of the sort selector. */
  datatype SortOption =
    | RatingDesc | RatingAsc
    | ArtistAsc | ArtistDesc
    | GenreAsc | GenreDesc
    | DateAsc | DateDesc

  type Entry = (string, AlbumRecord)

  function Keys(entries: seq<Entry>): (ks: seq<string>)
    ensures |ks| == |entries|
    ensures forall i | 0 <= i < |entries| :: ks[i] == entries[i].0
  {
    seq(|entries|, i requires 0 <= i < |entries| => entries[i].0)
  }

  predicate DistinctKeys(entries: seq<Entry>) {
    forall i, j | 0 <= i < j < |entries| :: entries[i].0 != entries[j].0
  }

  /** The position of `key`, or `|entries|` when it is absent. */
  function KeyIndex(entries: seq<Entry>, key: string): (i: nat)
    ensures i <= |entries|
    ensures i < |entries| ==> entries[i].0 == key
    ensures forall j | 0 <= j < i :: entries[j].0 != key
  {
    if entries == [] then 0
    else if entries[0].0 == key then 0
    else 1 + KeyIndex(entries[1..], key)
  }

  predicate HasKey(entries: seq<Entry>, key: string) {
    KeyIndex(entries, key) < |entries|
  }

  lemma KeyIndexAt(entries: seq<Entry>, i: nat)
    requires DistinctKeys(entries) && i < |entries|
    ensures KeyIndex(entries, entries[i].0) == i
  {
  }

  /** `savedRatings[key]`, or None when the key is absent. */
  function Lookup(entries: seq<Entry>, key: string): (v: Option<AlbumRecord>)
    ensures v.None? <==> forall i | 0 <= i < |entries| :: entries[i].0 != key
    ensures v.Some? ==> exists i | 0 <= i < |entries| :: entries[i] == (key, v.value)
  {
    var i := KeyIndex(entries, key);
    if i < |entries| then Some(entries[i].1) else None
  }

  /** `savedRatings[key] = value`: an existing key keeps its position, a new key goes last. */
  function Assign(entries: seq<Entry>, key: string, value: AlbumRecord): (r: seq<Entry>)
    ensures HasKey(entries, key) ==> |r| == |entries|
    ensures !HasKey(entries, key) ==> |r| == |entries| + 1 && r[|entries|] == (key, value)
    ensures HasKey(entries, key) ==> r[KeyIndex(entries, key)] == (key, value)
    ensures forall i | 0 <= i < |entries| && i != KeyIndex(entries, key) :: r[i] == entries[i]
  {
    var i := KeyIndex(entries, key);
    if i < |entries| then entries[i := (key, value)] else entries + [(key, value)]
  }

  /** `delete savedRatings[key]`. */
  function Remove(entries: seq<Entry>, key: string): (r: seq<Entry>)
    ensures !HasKey(entries, key) ==> r == entries
    ensures HasKey(entries, key) ==> |r| == |entries| - 1
  {
    var i := KeyIndex(entries, key);
    if i < |entries| then entries[..i] + entries[i + 1..] else entries
  }

  /** Assigning keeps the keys distinct, sets `key` and leaves every other key's record alone. */
  lemma AssignSpec(entries: seq<Entry>, key: string, value: AlbumRecord)
    requires DistinctKeys(entries)
    ensures DistinctKeys(Assign(entries, key, value))
    ensures Lookup(Assign(entries, key, value), key) == Some(value)
    ensures forall k | k != key :: Lookup(Assign(entries, key, value), k) == Lookup(entries, k)
  {
    var r := Assign(entries, key, value);
    forall k | k != key ensures Lookup(r, k) == Lookup(entries, k) {
      var i := KeyIndex(entries, k);
      if i < |entries| {
        KeyIndexAt(r, i);
      }
    }
    if HasKey(entries, key) { KeyIndexAt(r, KeyIndex(entries, key)); } else { KeyIndexAt(r, |entries|); }
  }

  /** Entry `j` after removal is entry `j` or `j + 1` before it. */
  lemma RemoveAt(entries: seq<Entry>, key: string, j: nat)
    requires HasKey(entries, key) && j < |Remove(entries, key)|
    ensures Remove(entries, key)[j] == entries[if j < KeyIndex(entries, key) then j else j + 1]
  {
  }

  /** The first position holding `key` is its index. */
  lemma KeyIndexFirst(entries: seq<Entry>, key: string, q: nat)
    requires q < |entries| && entries[q].0 == key
    requires forall j | 0 <= j < q :: entries[j].0 != key
    ensures KeyIndex(entries, key) == q
  {
  }

  lemma RemoveKeepsOther(entries: seq<Entry>, key: string, k: string)
    requires HasKey(entries, key) && k != key
    ensures Lookup(Remove(entries, key), k) == Lookup(entries, k)
  {
    var r := Remove(entries, key);
    var i := KeyIndex(entries, key);
    var p := KeyIndex(entries, k);
    if p < |entries| {
      var q := if p < i then p else p - 1;
      RemoveAt(entries, key, q);
      forall j | 0 <= j < q ensures r[j].0 != k {
        RemoveAt(entries, key, j);
      }
      KeyIndexFirst(r, k, q);
    } else {
      forall j | 0 <= j < |r| ensures r[j].0 != k {
        RemoveAt(entries, key, j);
      }
    }
  }

  lemma RemoveDistinct(entries: seq<Entry>, key: string)
    requires DistinctKeys(entries) && HasKey(entries, key)
    ensures DistinctKeys(Remove(entries, key))
    ensures !HasKey(Remove(entries, key), key)
  {
    var r := Remove(entries, key);
    var i := KeyIndex(entries, key);
    forall j | 0 <= j < |r| ensures r[j].0 != key {
      RemoveAt(entries, key, j);
    }
    forall a, b | 0 <= a < b < |r| ensures r[a].0 != r[b].0 {
      RemoveAt(entries, key, a);
      RemoveAt(entries, key, b);
    }
  }

  /** Removing keeps the keys distinct, drops `key` and leaves every other key's record alone. */
  lemma RemoveSpec(entries: seq<Entry>, key: string)
    requires DistinctKeys(entries)
    ensures DistinctKeys(Remove(entries, key))
    ensures Lookup(Remove(entries, key), key).None?
    ensures forall k | k != key :: Lookup(Remove(entries, key), k) == Lookup(entries, k)
  {
    if HasKey(entries, key) {
      RemoveDistinct(entries, key);
      forall k | k != key ensures Lookup(Remove(entries, key), k) == Lookup(entries, k) {
        RemoveKeepsOther(entries, key, k);
      }
    }
  }
}
