/** What a table holds, and what each change of its bytes keeps. */
module FxState {
  import opened Triangle
  import opened FxProbe

  // ----- counting -----

  ghost function Fulls(ctrl: seq<int>, n: nat): (f: nat)
    requires n <= |ctrl|
    ensures f <= n
  {
    if n == 0 then 0 else Fulls(ctrl, n - 1) + if Full(ctrl[n - 1]) then 1 else 0
  }

  ghost function Tombs(ctrl: seq<int>, n: nat): (f: nat)
    requires n <= |ctrl|
    ensures f <= n
  {
    if n == 0 then 0 else Tombs(ctrl, n - 1) + if ctrl[n - 1] == DELETED then 1 else 0
  }

  ghost function One(p: bool): nat { if p then 1 else 0 }

  lemma {:induction false} CountSame(ctrl: seq<int>, now: seq<int>, n: nat)
    requires n <= |ctrl| && n <= |now| && forall k :: 0 <= k < n ==> now[k] == ctrl[k]
    ensures Fulls(now, n) == Fulls(ctrl, n) && Tombs(now, n) == Tombs(ctrl, n)
  {
    if n > 0 { CountSame(ctrl, now, n - 1); }
  }

  /** Changing one byte changes the counts by one at most. */
  lemma {:induction false} CountSet(ctrl: seq<int>, now: seq<int>, n: nat, b: nat)
    requires b < n <= |ctrl| && n <= |now| && forall k :: 0 <= k < n && k != b ==> now[k] == ctrl[k]
    ensures Fulls(now, n) + One(Full(ctrl[b])) == Fulls(ctrl, n) + One(Full(now[b]))
    ensures Tombs(now, n) + One(ctrl[b] == DELETED) == Tombs(ctrl, n) + One(now[b] == DELETED)
  {
    if b == n - 1 { CountSame(ctrl, now, n - 1); } else { CountSet(ctrl, now, n - 1, b); }
  }

  lemma {:induction false} SomeEmpty(ctrl: seq<int>, n: nat) returns (b: nat)
    requires n <= |ctrl| && Fulls(ctrl, n) + Tombs(ctrl, n) < n && forall k :: 0 <= k < n ==> IsByte(ctrl[k])
    ensures b < n && ctrl[b] == EMPTY
  {
    if ctrl[n - 1] == EMPTY { b := n - 1; } else { b := SomeEmpty(ctrl, n - 1); }
  }

  lemma {:induction false} SomeFree(ctrl: seq<int>, n: nat) returns (b: nat)
    requires n <= |ctrl| && Fulls(ctrl, n) < n
    ensures b < n && !Full(ctrl[b])
  {
    if !Full(ctrl[n - 1]) { b := n - 1; } else { b := SomeFree(ctrl, n - 1); }
  }

  // ----- capacity -----

  /** The most entries and tombstones together that `mask + 1` buckets may hold; always fewer than the buckets. */
  function CapacityOf(mask: int): int { if mask < 8 then mask else (mask + 1) / 8 * 7 }

  function PowerFrom(n: nat, least: int): (r: nat)
    requires n >= 1
    decreases least - n
  {
    if n >= least then n else PowerFrom(2 * n, least)
  }

  /** A bucket count whose capacity reaches the one asked for. */
  function BucketsFor(capacity: nat): nat {
    if capacity < 4 then 4 else if capacity < 8 then 8 else if capacity < 15 then 16 else PowerFrom(1, capacity * 8 / 7)
  }

  lemma {:induction false} PowerIs(n: nat, least: int)
    requires n >= 1 && Power2(n)
    ensures var r := PowerFrom(n, least); Power2(r) && r >= least && r >= n
    decreases least - n
  {
    if n < least {
      assert Power2(2 * n);
      PowerIs(2 * n, least);
    }
  }

  /** A table made for `capacity` entries has room for them, and a bucket to spare. */
  lemma {:induction false} RoomFor(capacity: nat)
    ensures var n := BucketsFor(capacity); Buckets(n) && capacity <= CapacityOf(n - 1) < n
  {
    var n := BucketsFor(capacity);
    if capacity < 15 {
      assert Power2(1) && Power2(2) && Power2(4) && Power2(8) && Power2(16);
    } else {
      assert Power2(1);
      PowerIs(1, capacity * 8 / 7);
      assert n >= 17;
      EightFits(n);
    }
  }

  lemma {:induction false} CapacityBelow(n: int)
    requires Buckets(n)
    ensures 3 <= CapacityOf(n - 1) < n
  {
    if n >= GROUP { EightFits(n); }
  }

  // ----- what a table holds -----

  type Content = map<nat, int>

  /** The full bucket b holds an entry, findable from its hash. */
  ghost predicate EntryRight(ctrl: seq<int>, keys: seq<nat>, vals: seq<int>, content: Content, b: int)
    requires |keys| == |vals| > 0 && |ctrl| == |keys| + GROUP && 0 <= b < |keys|
  {
    var h := FxHash(keys[b]);
    ctrl[b] == H2(h) && keys[b] in content && content[keys[b]] == vals[b] && Reached(ctrl, |keys|, h, b)
  }

  ghost predicate Present(ctrl: seq<int>, keys: seq<nat>, key: nat)
    requires |ctrl| >= |keys|
  {
    exists b :: 0 <= b < |keys| && Full(ctrl[b]) && keys[b] == key
  }

  /** Each key of the content is in exactly one full bucket, with its value, before any empty byte of
      its probe. */
  ghost predicate Sound(ctrl: seq<int>, keys: seq<nat>, vals: seq<int>, content: Content) {
    && |vals| == |keys| && Shape(ctrl, |keys|)
    && (forall b :: 0 <= b < |keys| && Full(ctrl[b]) ==> EntryRight(ctrl, keys, vals, content, b))
    && (forall k :: k in content ==> Present(ctrl, keys, k))
    && (forall a, b :: 0 <= a < b < |keys| && Full(ctrl[a]) && Full(ctrl[b]) ==> keys[a] != keys[b])
  }

  lemma {:induction false} SoundShape(ctrl: seq<int>, keys: seq<nat>, vals: seq<int>, content: Content)
    requires Sound(ctrl, keys, vals, content)
    ensures |vals| == |keys| && Shape(ctrl, |keys|) && |ctrl| == |keys| + GROUP && |keys| >= 4
  {
  }

  /** Bytes counted: entries, and room left before the table is made anew. */
  ghost predicate Room(ctrl: seq<int>, n: nat, items: int, growthLeft: int)
    requires n <= |ctrl|
  {
    && items == Fulls(ctrl, n) && growthLeft >= 0 && items + Tombs(ctrl, n) + growthLeft == CapacityOf(n - 1)
    && (n == 4 ==> Tombs(ctrl, n) == 0)
  }

  // ----- putting an entry in -----

  lemma {:induction false} OtherKept(ctrl: seq<int>, now: seq<int>, keys: seq<nat>, vals: seq<int>, content: Content,
                                     keys2: seq<nat>, vals2: seq<int>, content2: Content, b: int)
    requires |keys| == |vals| == |keys2| == |vals2| > 0 && |ctrl| == |now| == |keys| + GROUP && 0 <= b < |keys|
    requires EntryRight(ctrl, keys, vals, content, b) && now[b] == ctrl[b] && keys2[b] == keys[b] && vals2[b] == vals[b]
    requires keys[b] in content2 && content2[keys[b]] == content[keys[b]]
    requires forall pos :: 0 <= pos < |keys| && HasEmpty(now, pos) ==> HasEmpty(ctrl, pos)
    ensures EntryRight(now, keys2, vals2, content2, b)
  {
    hide HasEmpty, Reached;
    StillReached(ctrl, now, |keys|, FxHash(keys[b]), b);
  }

  /** A new entry at a free bucket its probe comes to before any other free byte. */
  lemma {:induction false} PutSound(ctrl: seq<int>, keys: seq<nat>, vals: seq<int>, content: Content, b: int, key: nat, v: int)
    requires Sound(ctrl, keys, vals, content) && key !in content && 0 <= b < |keys| && !Full(ctrl[b])
    requires Settled(ctrl, |keys|, FxHash(key), b)
    ensures Sound(SetCtrl(ctrl, |keys|, b, H2(FxHash(key))), keys[b := key], vals[b := v], content[key := v])
  {
    hide Shape, Reached, Settled, HasEmpty, EntryRight, SetCtrl, FxHash, Full;
    var n, h := |keys|, FxHash(key);
    SoundShape(ctrl, keys, vals, content);
    var now, keys2, vals2, more := SetCtrl(ctrl, n, b, H2(h)), keys[b := key], vals[b := v], content[key := v];
    HashByte(key);
    SetShape(ctrl, n, b, H2(h));
    FullNot();
    forall pos | 0 <= pos < n && HasEmpty(now, pos) ensures HasEmpty(ctrl, pos) { NoNewEmpty(ctrl, now, n, pos); }
    SettledReached(ctrl, n, h, b);
    StillReached(ctrl, now, n, h, b);
    NewEntry(now, keys2, vals2, more, b);
    forall a | 0 <= a < n && Full(now[a]) ensures EntryRight(now, keys2, vals2, more, a) {
      if a != b {
        KeyKnown(ctrl, keys, vals, content, a);
        OtherKept(ctrl, now, keys, vals, content, keys2, vals2, more, a);
      }
    }
    forall k | k in more ensures Present(now, keys2, k) { PresentStill(ctrl, now, keys, keys2, content, b, key, k); }
    forall a, c | 0 <= a < c < n && Full(now[a]) && Full(now[c]) ensures keys2[a] != keys2[c] {
      if a != b { KeyKnown(ctrl, keys, vals, content, a); }
      if c != b { KeyKnown(ctrl, keys, vals, content, c); }
    }
  }

  lemma {:induction false} HashByte(key: nat)
    ensures IsByte(H2(FxHash(key))) && Full(H2(FxHash(key))) && H2(FxHash(key)) != EMPTY
  {
  }

  lemma {:induction false} FullNot()
    ensures !Full(EMPTY) && !Full(DELETED)
  {
  }

  lemma {:induction false} NewEntry(ctrl: seq<int>, keys: seq<nat>, vals: seq<int>, content: Content, b: int)
    requires |keys| == |vals| > 0 && |ctrl| == |keys| + GROUP && 0 <= b < |keys|
    requires ctrl[b] == H2(FxHash(keys[b])) && keys[b] in content && content[keys[b]] == vals[b]
    requires Reached(ctrl, |keys|, FxHash(keys[b]), b)
    ensures EntryRight(ctrl, keys, vals, content, b)
  {
  }

  lemma {:induction false} KeyKnown(ctrl: seq<int>, keys: seq<nat>, vals: seq<int>, content: Content, b: int)
    requires Sound(ctrl, keys, vals, content) && 0 <= b < |keys| && Full(ctrl[b])
    ensures keys[b] in content && content[keys[b]] == vals[b] && EntryRight(ctrl, keys, vals, content, b)
  {
  }

  lemma {:induction false} PresentStill(ctrl: seq<int>, now: seq<int>, keys: seq<nat>, keys2: seq<nat>, content: Content, b: int, key: nat, k: nat)
    requires |keys| == |keys2| && |ctrl| == |now| >= |keys| && 0 <= b < |keys| && keys2 == keys[b := key]
    requires Full(now[b]) && (!Full(ctrl[b]) || keys[b] == key) && forall a :: 0 <= a < |keys| && a != b ==> now[a] == ctrl[a]
    requires k == key || Present(ctrl, keys, k)
    ensures Present(now, keys2, k)
  {
    if k == key {
      assert keys2[b] == key;
    } else {
      var a :| 0 <= a < |keys| && Full(ctrl[a]) && keys[a] == k;
      assert a != b && keys2[a] == k;
    }
  }

  /** A new value for an entry. */
  lemma {:induction false} UpdateSound(ctrl: seq<int>, keys: seq<nat>, vals: seq<int>, content: Content, b: int, v: int)
    requires Sound(ctrl, keys, vals, content) && 0 <= b < |keys| && Full(ctrl[b])
    ensures Sound(ctrl, keys, vals[b := v], content[keys[b] := v])
  {
    hide Shape, Reached, EntryRight, Full;
    var more := content[keys[b] := v];
    SoundShape(ctrl, keys, vals, content);
    KeyKnown(ctrl, keys, vals, content, b);
    forall a | 0 <= a < |keys| && Full(ctrl[a]) ensures EntryRight(ctrl, keys, vals[b := v], more, a) {
      KeyKnown(ctrl, keys, vals, content, a);
      UpdatedEntry(ctrl, keys, vals, content, a, b, v);
    }
  }

  lemma {:induction false} UpdatedEntry(ctrl: seq<int>, keys: seq<nat>, vals: seq<int>, content: Content, a: int, b: int, v: int)
    requires |keys| == |vals| > 0 && |ctrl| == |keys| + GROUP && 0 <= a < |keys| && 0 <= b < |keys|
    requires EntryRight(ctrl, keys, vals, content, a) && (a == b || keys[a] != keys[b])
    ensures EntryRight(ctrl, keys, vals[b := v], content[keys[b] := v], a)
  {
    hide Reached;
  }

  /** An entry taken out, no group gaining its first empty byte. */
  lemma {:induction false} RemoveSound(ctrl: seq<int>, keys: seq<nat>, vals: seq<int>, content: Content, b: int, c: int)
    requires Sound(ctrl, keys, vals, content) && 0 <= b < |keys| && Full(ctrl[b]) && (c == EMPTY || c == DELETED)
    requires forall pos :: 0 <= pos < |keys| && HasEmpty(SetCtrl(ctrl, |keys|, b, c), pos) ==> HasEmpty(ctrl, pos)
    ensures Sound(SetCtrl(ctrl, |keys|, b, c), keys, vals, content - {keys[b]})
  {
    hide Shape, Reached, HasEmpty, EntryRight, SetCtrl, Full;
    var n := |keys|;
    SoundShape(ctrl, keys, vals, content);
    var now, less := SetCtrl(ctrl, n, b, c), content - {keys[b]};
    SetShape(ctrl, n, b, c);
    FullNot();
    forall a | 0 <= a < n && Full(now[a]) ensures EntryRight(now, keys, vals, less, a) {
      KeyKnown(ctrl, keys, vals, content, a);
      OtherKept(ctrl, now, keys, vals, content, keys, vals, less, a);
    }
    forall k | k in less ensures Present(now, keys, k) {
      var a :| 0 <= a < n && Full(ctrl[a]) && keys[a] == k;
      assert now[a] == ctrl[a];
    }
  }

  /** A table of empty bytes holds nothing. */
  lemma {:induction false} EmptySound(ctrl: seq<int>, keys: seq<nat>, vals: seq<int>)
    requires Buckets(|keys|) && |vals| == |keys| && |ctrl| == |keys| + GROUP && forall p :: 0 <= p < |ctrl| ==> ctrl[p] == EMPTY
    ensures Sound(ctrl, keys, vals, map[]) && Fulls(ctrl, |keys|) == 0 && Tombs(ctrl, |keys|) == 0
  {
    NothingCounted(ctrl, |keys|);
  }

  lemma {:induction false} NothingCounted(ctrl: seq<int>, n: nat)
    requires n <= |ctrl| && forall p :: 0 <= p < |ctrl| ==> ctrl[p] == EMPTY
    ensures Fulls(ctrl, n) == 0 && Tombs(ctrl, n) == 0
  {
    if n > 0 { NothingCounted(ctrl, n - 1); }
  }

  // ----- finding -----

  /** No full bucket of the group holds the key. */
  ghost predicate NotIn(ctrl: seq<int>, keys: seq<nat>, pos: int, key: nat)
    requires |keys| > 0 && |ctrl| >= |keys|
  {
    forall b :: 0 <= b < |keys| && InGroup(pos, |keys|, b) && Full(ctrl[b]) ==> keys[b] != key
  }

  lemma {:induction false} NotThere(ctrl: seq<int>, keys: seq<nat>, pos: int, key: nat, b: int)
    requires |keys| > 0 && |ctrl| >= |keys| && NotIn(ctrl, keys, pos, key) && 0 <= b < |keys| && InGroup(pos, |keys|, b) && Full(ctrl[b])
    ensures keys[b] != key
  {
  }

  /** Where the probe for a key that is there meets it, no group before holding an empty byte. */
  lemma {:induction false} KeyMet(ctrl: seq<int>, keys: seq<nat>, vals: seq<int>, content: Content, key: nat) returns (b: int, i: nat)
    requires Sound(ctrl, keys, vals, content) && key in content
    ensures 0 <= b < |keys| && |ctrl| == |keys| + GROUP && Full(ctrl[b]) && keys[b] == key && InWin(FxHash(key), |keys|, i, b)
    ensures forall k: nat :: k < i ==> !HasEmpty(ctrl, WinPos(FxHash(key), |keys|, k))
  {
    hide Shape, HasEmpty, WinPos, FxHash, Full, InGroup, H2;
    SoundShape(ctrl, keys, vals, content);
    assert Present(ctrl, keys, key);
    b :| 0 <= b < |keys| && Full(ctrl[b]) && keys[b] == key;
    KeyKnown(ctrl, keys, vals, content, b);
    var n, h := |keys|, FxHash(key);
    i :| InWin(h, n, i, b) && forall k: nat :: k < i ==> !HasEmpty(ctrl, WinPos(h, n, k));
  }

  /** A probe that has met an empty byte and not the key has met all that could hold it. */
  lemma {:induction false} FoundNone(ctrl: seq<int>, keys: seq<nat>, vals: seq<int>, content: Content, key: nat, j: nat)
    requires Sound(ctrl, keys, vals, content) && |keys| > 0 && |ctrl| == |keys| + GROUP
    requires HasEmpty(ctrl, WinPos(FxHash(key), |keys|, j))
    requires forall k: nat :: k <= j ==> NotIn(ctrl, keys, WinPos(FxHash(key), |keys|, k), key)
    ensures key !in content
  {
    hide Sound, HasEmpty, WinPos, FxHash, Full, InGroup, NotIn;
    if key in content {
      var b, i := KeyMet(ctrl, keys, vals, content, key);
      NotThere(ctrl, keys, WinPos(FxHash(key), |keys|, i), key, b);
    }
  }

  /** A probe cannot pass all groups without an empty byte. */
  lemma {:induction false} ProbeEnds(ctrl: seq<int>, n: int, h: nat, j: nat)
    requires Shape(ctrl, n) && Fulls(ctrl, n) + Tombs(ctrl, n) < n
    requires forall k: nat :: k < j ==> !HasEmpty(ctrl, WinPos(h, n, k))
    ensures j < Probes(n)
  {
    hide HasEmpty, WinPos, InGroup;
    var b := SomeEmpty(ctrl, n);
    var i := Covered(h, n, b);
    WinRange(h, n, i);
    BucketShows(ctrl, n, WinPos(h, n, i), b);
  }

  lemma {:induction false} ProbeFrees(ctrl: seq<int>, n: int, h: nat, j: nat)
    requires Shape(ctrl, n) && Fulls(ctrl, n) < n
    requires forall k: nat :: k < j ==> !HasFree(ctrl, WinPos(h, n, k))
    ensures j < Probes(n)
  {
    hide HasFree, WinPos, InGroup;
    var b := SomeFree(ctrl, n);
    var i := Covered(h, n, b);
    WinRange(h, n, i);
    BucketShows(ctrl, n, WinPos(h, n, i), b);
  }
}
