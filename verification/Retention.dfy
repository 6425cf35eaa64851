/** Items held until a deadline: the document and liveness stores, and the sweep that drops
    what has expired by compacting each slice in place. */
module Retention {
  import opened Decisions
  import opened Entities

  /** An item with the instant its retention ends; the zero time means it never does. */
  datatype Held<+T> = Held(item: T, retentionUntil: Time)

  predicate Expired<T>(h: Held<T>, now: Time) {
    h.retentionUntil != ZERO_TIME && h.retentionUntil <= now
  }

  /** The unexpired items, in order. */
  function Kept<T>(items: seq<Held<T>>, now: Time): (r: seq<Held<T>>)
    ensures |r| <= |items|
  {
    if items == [] then []
    else
      var n := |items| - 1;
      Kept(items[..n], now) + (if Expired(items[n], now) then [] else [items[n]])
  }

  /** A store: for each application, the items added for it, oldest first. */
  type Shelves<T> = map<string, seq<Held<T>>>

  function WithItem<T>(m: Shelves<T>, appId: string, h: Held<T>): Shelves<T> {
    m[appId := (if appId in m then m[appId] else []) + [h]]
  }

  function Swept<T>(m: Shelves<T>, now: Time): Shelves<T> {
    map appId | appId in m :: Kept(m[appId], now)
  }

  /** The items on all shelves. */
  ghost function Total<T>(m: map<string, seq<T>>): nat
    decreases |m|
  {
    if m == map[] then 0 else var k :| k in m; |m[k]| + Total(m - {k})
  }

  lemma {:induction false} TotalPick<T>(m: map<string, seq<T>>, k: string)
    requires k in m
    ensures Total(m) == |m[k]| + Total(m - {k})
    decreases |m|
  {
    var j :| j in m && Total(m) == |m[j]| + Total(m - {j});
    if j != k {
      TotalPick(m - {j}, k);
      TotalPick(m - {k}, j);
      assert m - {j} - {k} == m - {k} - {j};
    }
  }

  lemma TotalUpdate<T>(m: map<string, seq<T>>, k: string, items: seq<T>)
    requires k in m
    ensures Total(m[k := items]) == Total(m) - |m[k]| + |items|
  {
    TotalPick(m, k);
    TotalPick(m[k := items], k);
    assert m[k := items] - {k} == m - {k};
  }

  /** What is added comes last on the shelf of its application, behind what was there, and no
      other shelf changes. */
  lemma AddedComesLast<T>(m: Shelves<T>, appId: string, h: Held<T>)
    ensures var t := WithItem(m, appId, h);
      && t.Keys == m.Keys + {appId}
      && |t[appId]| == (if appId in m then |m[appId]| else 0) + 1 && t[appId][|t[appId]| - 1] == h
      && (appId in m ==> m[appId] <= t[appId])
      && forall k | k in m && k != appId :: t[k] == m[k]
  {
  }

  // ---- sweeping twice ----

  lemma KeptSnoc<T>(items: seq<Held<T>>, h: Held<T>, now: Time)
    ensures Kept(items + [h], now) == Kept(items, now) + (if Expired(h, now) then [] else [h])
  {
    assert (items + [h])[..|items|] == items;
  }

  lemma {:induction false} KeptTwice<T>(items: seq<Held<T>>, first: Time, second: Time)
    requires first <= second
    ensures Kept(Kept(items, first), second) == Kept(items, second)
  {
    if items != [] {
      var n := |items| - 1;
      KeptTwice(items[..n], first, second);
      if Expired(items[n], first) {
        assert Kept(items, first) == Kept(items[..n], first);
      } else {
        KeptSnoc(Kept(items[..n], first), items[n], second);
      }
    }
  }

  /** An earlier sweep makes no difference to a later one: the same items are left, and the
      two together remove as many as the later one alone. */
  lemma SweepTwice<T>(m: Shelves<T>, first: Time, second: Time)
    requires first <= second
    ensures Swept(Swept(m, first), second) == Swept(m, second)
    ensures (Total(m) - Total(Swept(m, first))) + (Total(Swept(m, first)) - Total(Swept(Swept(m, first), second)))
            == Total(m) - Total(Swept(m, second))
  {
    forall k | k in m
      ensures Kept(Kept(m[k], first), second) == Kept(m[k], second)
    {
      KeptTwice(m[k], first, second);
    }
    assert Swept(Swept(m, first), second) == Swept(m, second);
  }

  /** What is kept is exactly the items with no deadline and those whose deadline is still to
      come; all are kept exactly when none has passed its deadline. */
  lemma {:induction false} KeptExactly<T>(items: seq<Held<T>>, now: Time)
    ensures forall h :: h in Kept(items, now) <==> h in items && (h.retentionUntil == 0 || h.retentionUntil > now)
    ensures |Kept(items, now)| == |items|
       <==> forall i | 0 <= i < |items| :: items[i].retentionUntil == 0 || items[i].retentionUntil > now
  {
    if items != [] {
      var n := |items| - 1;
      KeptExactly(items[..n], now);
      assert items == items[..n] + [items[n]];
      assert forall i | 0 <= i < n :: items[i] == items[..n][i];
    }
  }

  /** After a sweep of all shelves, an item is on its shelf exactly when it was there and its
      deadline, if it has one, is still to come; no shelf is added or taken away. */
  ghost predicate SurvivorsOf<T>(m: Shelves<T>, t: Shelves<T>, now: Time) {
    && t.Keys == m.Keys
    && (forall k, i | k in m && 0 <= i < |m[k]| ::
          m[k][i] in t[k] <==> m[k][i].retentionUntil == 0 || m[k][i].retentionUntil > now)
    && (forall k, i | k in m && 0 <= i < |t[k]| :: t[k][i] in m[k])
  }

  lemma {:induction false} KeptIsItem<T>(items: seq<Held<T>>, now: Time, i: nat)
    requires i < |Kept(items, now)|
    ensures Kept(items, now)[i] in items
  {
    var n := |items| - 1;
    if i < |Kept(items[..n], now)| {
      KeptIsItem(items[..n], now, i);
      assert Kept(items, now)[i] == Kept(items[..n], now)[i];
    }
  }

  lemma SweptExactly<T>(m: Shelves<T>, now: Time)
    ensures SurvivorsOf(m, Swept(m, now), now)
  {
    forall k, i | k in m && 0 <= i < |m[k]|
      ensures m[k][i] in Swept(m, now)[k] <==> m[k][i].retentionUntil == 0 || m[k][i].retentionUntil > now
    {
      KeptExactly(m[k], now);
      assert m[k][i] in m[k];
    }
    forall k, i | k in m && 0 <= i < |Swept(m, now)[k]|
      ensures Swept(m, now)[k][i] in m[k]
    {
      KeptIsItem(m[k], now, i);
    }
  }

  /** The last item kept is the last unexpired one. */
  lemma {:induction false} LatestKept<T>(items: seq<Held<T>>, now: Time, i: nat)
    requires i < |items| && !Expired(items[i], now)
    requires forall j | i < j < |items| :: Expired(items[j], now)
    ensures Kept(items, now) != [] && Kept(items, now)[|Kept(items, now)| - 1] == items[i]
  {
    var n := |items| - 1;
    if i < n {
      LatestKept(items[..n], now, i);
    }
  }

  // ---- slices ----

  /** A slice: the first `len` elements of an array. */
  datatype Slice<!T> = Slice(arr: array<T>, len: nat)

  /** append: in place while the array has room, else into a larger array. */
  method Append<T(0)>(s: Slice<T>, x: T) returns (r: Slice<T>)
    requires s.len <= s.arr.Length
    modifies s.arr
    ensures r.len == s.len + 1 <= r.arr.Length
    ensures r.arr == s.arr || fresh(r.arr)
    ensures r.arr[..r.len] == old(s.arr[..s.len]) + [x]
  {
    if s.len < s.arr.Length {
      s.arr[s.len] := x;
      r := Slice(s.arr, s.len + 1);
    } else {
      var bigger := new T[2 * s.len + 1];
      for i := 0 to s.len
        invariant bigger[..i] == s.arr[..i]
        invariant s.arr[..] == old(s.arr[..])
      {
        bigger[i] := s.arr[i];
      }
      bigger[s.len] := x;
      r := Slice(bigger, s.len + 1);
    }
  }

  /** Moves an item down to the end of the part already kept. */
  method Keep<T>(arr: array<T>, kept: nat, h: T)
    requires kept < arr.Length
    modifies arr
    ensures arr[..kept + 1] == old(arr[..kept]) + [h]
    ensures forall k | kept < k < arr.Length :: arr[k] == old(arr[k])
  {
    arr[kept] := h;
  }

  /** Drops the expired items of a slice in place, over its own array. */
  method Compact<T>(arr: array<Held<T>>, len: nat, now: Time) returns (kept: nat)
    requires len <= arr.Length
    modifies arr
    ensures kept <= len && arr[..kept] == Kept(old(arr[..len]), now)
  {
    ghost var items := arr[..len];
    kept := 0;
    for i := 0 to len
      invariant kept <= i && arr[..kept] == Kept(items[..i], now)
      invariant forall k | i <= k < len :: arr[k] == items[k]
    {
      assert arr[i] == items[i] && items[..i + 1] == items[..i] + [items[i]];
      KeptSnoc(items[..i], items[i], now);
      var h := arr[i];
      if !Expired(h, now) {
        Keep(arr, kept, h);
        kept := kept + 1;
      }
    }
    assert items[..len] == items;
  }

  // ---- documents ----

  datatype DocumentBody = DocumentBody(
    id: string,
    applicationId: string,
    docType: DocType,
    content: array<Byte>,
    uploadedAt: Time
  )

  type Document = Held<DocumentBody>

  function DocTypes(items: seq<Document>): seq<DocType> {
    seq(|items|, i requires 0 <= i < |items| => items[i].item.docType)
  }

  function Zeros(n: nat): seq<Byte> {
    seq(n, _ => 0)
  }

  /** What a sweep leaves in the content of a document: zeroes, if the document has expired. */
  function Redacted(d: Document, content: seq<Byte>, now: Time): seq<Byte> {
    if Expired(d, now) then Zeros(|content|) else content
  }

  /** Different documents hold different contents. */
  ghost predicate DistinctContents(items: seq<Document>) {
    forall i, j | 0 <= i < j < |items| :: items[i].item.content != items[j].item.content
  }

  ghost function ContentsOf(items: seq<Document>): set<array<Byte>> {
    set i | 0 <= i < |items| :: items[i].item.content
  }

  method Zero(content: array<Byte>)
    modifies content
    ensures content[..] == Zeros(content.Length)
  {
    for i := 0 to content.Length
      invariant forall k | 0 <= k < i :: content[k] == 0
    {
      content[i] := 0;
    }
  }

  /** The bytes of each document's content. */
  ghost function Bytes(items: seq<Document>): (r: seq<seq<Byte>>)
    reads ContentsOf(items)
    ensures |r| == |items| && forall k | 0 <= k < |items| :: r[k] == items[k].item.content[..]
  {
    if items == [] then []
    else
      assert ContentsOf(items[..|items| - 1]) <= ContentsOf(items);
      assert items[|items| - 1].item.content in ContentsOf(items);
      Bytes(items[..|items| - 1]) + [items[|items| - 1].item.content[..]]
  }

  /** One round of the sweep: document `i` is redacted, or kept at the next free place. */
  method SweepOne(arr: array<Document>, kept: nat, i: nat, now: Time, ghost items: seq<Document>)
    returns (kept': nat)
    requires kept <= i < |items| <= arr.Length && DistinctContents(items)
    requires arr[i] == items[i] && arr[..kept] == Kept(items[..i], now)
    modifies arr, arr[i].item.content
    ensures kept' <= i + 1 && arr[..kept'] == Kept(items[..i + 1], now)
    ensures forall k | i < k < arr.Length :: arr[k] == old(arr[k])
    ensures items[i].item.content[..] == Redacted(items[i], old(items[i].item.content[..]), now)
  {
    assert items[..i + 1] == items[..i] + [items[i]];
    KeptSnoc(items[..i], items[i], now);
    var d := arr[i];
    if Expired(d, now) {
      Zero(d.item.content);
      kept' := kept;
    } else {
      Keep(arr, kept, d);
      kept' := kept + 1;
    }
  }

  /** Compacts a slice of documents in place and zeroes the content of those it drops. */
  method CompactDocuments(arr: array<Document>, len: nat, now: Time, ghost items: seq<Document>)
    returns (kept: nat)
    requires len <= arr.Length && items == arr[..len] && DistinctContents(items)
    modifies arr, ContentsOf(items)
    ensures kept <= len && arr[..kept] == Kept(items, now)
    ensures forall k | 0 <= k < len ::
      items[k].item.content[..] == Redacted(items[k], old(items[k].item.content[..]), now)
  {
    ghost var was := Bytes(items);
    kept := 0;
    for i := 0 to len
      invariant kept <= i && arr[..kept] == Kept(items[..i], now)
      invariant forall k | i <= k < len :: arr[k] == items[k]
      invariant forall k | 0 <= k < len ::
        items[k].item.content[..] == if k < i then Redacted(items[k], was[k], now) else was[k]
    {
      assert items[i].item.content in ContentsOf(items);
      kept := SweepOne(arr, kept, i, now, items);
    }
    assert items[..len] == items;
  }

  /** No two documents, of one application or of two, hold the same content. */
  ghost predicate Disjoint(m: Shelves<DocumentBody>) {
    forall j, k, i, l | j in m && k in m && 0 <= i < |m[j]| && 0 <= l < |m[k]| && (j != k || i != l) ::
      m[j][i].item.content != m[k][l].item.content
  }

  ghost predicate Unshared(m: Shelves<DocumentBody>, content: array<Byte>) {
    forall k, i | k in m && 0 <= i < |m[k]| :: m[k][i].item.content != content
  }

  lemma AddKeepsDisjoint(m: Shelves<DocumentBody>, appId: string, d: Document)
    requires Disjoint(m) && Unshared(m, d.item.content)
    ensures Disjoint(WithItem(m, appId, d))
  {
  }

  ghost function ContentsIn(m: Shelves<DocumentBody>): set<array<Byte>> {
    set k, i | k in m && 0 <= i < |m[k]| :: m[k][i].item.content
  }

  /** The bytes of every content on the shelves. */
  ghost function AllBytes(m: Shelves<DocumentBody>): map<string, seq<seq<Byte>>>
    reads ContentsIn(m)
  {
    map k | k in m :: (assert ContentsOf(m[k]) <= ContentsIn(m); Bytes(m[k]))
  }

  /** What a sweep leaves of the bytes of some documents. */
  function RedactedAll(items: seq<Document>, bytes: seq<seq<Byte>>, now: Time): seq<seq<Byte>>
    requires |bytes| == |items|
  {
    seq(|items|, i requires 0 <= i < |items| => Redacted(items[i], bytes[i], now))
  }

  lemma {:induction false} KeptComeFrom<T>(items: seq<Held<T>>, now: Time, from: seq<nat>)
    requires from == KeptIndices(items, now)
    ensures |from| == |Kept(items, now)|
    ensures forall i | 0 <= i < |from| :: from[i] < |items| && Kept(items, now)[i] == items[from[i]]
    ensures forall i, j | 0 <= i < j < |from| :: from[i] < from[j]
  {
    if items != [] {
      var n := |items| - 1;
      KeptComeFrom(items[..n], now, KeptIndices(items[..n], now));
    }
  }

  /** Where the kept items were. */
  ghost function KeptIndices<T>(items: seq<Held<T>>, now: Time): seq<nat> {
    if items == [] then []
    else
      var n := |items| - 1;
      KeptIndices(items[..n], now) + (if Expired(items[n], now) then [] else [n])
  }

  lemma SweepKeepsDisjoint(m: Shelves<DocumentBody>, now: Time)
    requires Disjoint(m)
    ensures Disjoint(Swept(m, now))
  {
    var s: Shelves<DocumentBody> := Swept(m, now);
    forall j, k, i, l | j in s && k in s && 0 <= i < |s[j]| && 0 <= l < |s[k]| && (j != k || i != l)
      ensures s[j][i].item.content != s[k][l].item.content
    {
      KeptComeFrom(m[j], now, KeptIndices(m[j], now));
      KeptComeFrom(m[k], now, KeptIndices(m[k], now));
    }
  }

  lemma OthersAreApart(m: Shelves<DocumentBody>, appId: string)
    requires Disjoint(m) && appId in m
    ensures forall k, i | k in m && k != appId && 0 <= i < |m[k]| :: m[k][i].item.content !in ContentsOf(m[appId])
  {
  }

  /** Redacting the documents of one application changes no other content. */
  lemma OthersKeepBytes(m: Shelves<DocumentBody>, was: map<string, seq<seq<Byte>>>, appId: string, now: Time)
    requires appId in m && was.Keys == m.Keys && forall k | k in m :: |was[k]| == |m[k]|
    requires forall k, i | k in m && k != appId && 0 <= i < |m[k]| :: m[k][i].item.content[..] == was[k][i]
    requires forall i | 0 <= i < |m[appId]| ::
      m[appId][i].item.content[..] == Redacted(m[appId][i], was[appId][i], now)
    ensures AllBytes(m) == was[appId := RedactedAll(m[appId], was[appId], now)]
  {
    var r := was[appId := RedactedAll(m[appId], was[appId], now)];
    forall k | k in m
      ensures AllBytes(m)[k] == r[k]
    {
      assert Bytes(m[k]) == r[k];
    }
  }

  /** What a sweep leaves of the bytes on all shelves. */
  function RedactedShelves(m: Shelves<DocumentBody>, bytes: map<string, seq<seq<Byte>>>, now: Time)
    : map<string, seq<seq<Byte>>>
    requires bytes.Keys == m.Keys && forall k | k in m :: |bytes[k]| == |m[k]|
  {
    map k | k in m :: RedactedAll(m[k], bytes[k], now)
  }

  /** Byte for byte: a document whose deadline is set and not after `now` has lost every byte
      to zero, and any other has kept them all. */
  ghost predicate BytesAfterSweep(m: Shelves<DocumentBody>, before: map<string, seq<seq<Byte>>>,
                                  after: map<string, seq<seq<Byte>>>, now: Time)
  {
    && after.Keys == before.Keys == m.Keys
    && (forall k | k in m :: |after[k]| == |before[k]| == |m[k]|)
    && (forall k, i | k in m && 0 <= i < |m[k]| :: |after[k][i]| == |before[k][i]|)
    && forall k, i, b | k in m && 0 <= i < |m[k]| && 0 <= b < |before[k][i]| ::
         after[k][i][b] == if 0 < m[k][i].retentionUntil <= now then 0 else before[k][i][b]
  }

  lemma RedactedExactly(m: Shelves<DocumentBody>, bytes: map<string, seq<seq<Byte>>>, now: Time)
    requires bytes.Keys == m.Keys && forall k | k in m :: |bytes[k]| == |m[k]|
    ensures BytesAfterSweep(m, bytes, RedactedShelves(m, bytes, now), now)
  {
  }

  /** A map in the middle of an update: as before on `left`, as after elsewhere. */
  function Mixed<V>(before: map<string, V>, after: map<string, V>, left: set<string>): map<string, V>
    requires before.Keys == after.Keys
  {
    map k | k in before :: if k in left then before[k] else after[k]
  }

  lemma MixedStep<V>(before: map<string, V>, after: map<string, V>, left: set<string>, k: string)
    requires before.Keys == after.Keys && k in before
    ensures Mixed(before, after, left)[k := after[k]] == Mixed(before, after, left - {k})
  {
  }

  lemma MixedEnds<V>(before: map<string, V>, after: map<string, V>)
    requires before.Keys == after.Keys
    ensures Mixed(before, after, before.Keys) == before && Mixed(before, after, {}) == after
  {
  }

  /** One round of a sweep, on values: shelf, bytes and total move on together. */
  lemma RoundAdvances(m: Shelves<DocumentBody>, was: map<string, seq<seq<Byte>>>, shelf: Shelves<DocumentBody>,
                      left: set<string>, appId: string, now: Time)
    requires was.Keys == m.Keys && (forall k | k in m :: |was[k]| == |m[k]|)
    requires shelf == Mixed(m, Swept(m, now), left) && appId in left && appId in m
    ensures shelf[appId] == m[appId]
    ensures shelf[appId := Kept(m[appId], now)] == Mixed(m, Swept(m, now), left - {appId})
    ensures Mixed(was, RedactedShelves(m, was, now), left)[appId := RedactedAll(m[appId], was[appId], now)]
         == Mixed(was, RedactedShelves(m, was, now), left - {appId})
    ensures Total(shelf[appId := Kept(m[appId], now)]) + |m[appId]| == Total(shelf) + |Kept(m[appId], now)|
  {
    TotalUpdate(shelf, appId, Kept(m[appId], now));
    MixedStep(m, Swept(m, now), left, appId);
    MixedStep(was, RedactedShelves(m, was, now), left, appId);
  }

  class DocumentStore {
    var docs: map<string, Slice<Document>>

    constructor ()
      ensures Valid() && Shelf() == map[]
    {
      docs := map[];
    }

    ghost function Arrays(): set<array<Document>>
      reads this
    {
      set k | k in docs :: docs[k].arr
    }

    ghost predicate Owned()
      reads this
    {
      && (forall k | k in docs :: docs[k].len <= docs[k].arr.Length)
      && (forall j, k | j in docs && k in docs && j != k :: docs[j].arr != docs[k].arr)
    }

    /** No two slices share an array and no two stored documents share a content. */
    ghost predicate Valid()
      reads this, Arrays()
    {
      Owned() && Disjoint(Shelf())
    }

    ghost function Items(k: string): seq<Document>
      requires k in docs && docs[k].len <= docs[k].arr.Length
      reads this, docs[k].arr
    {
      docs[k].arr[..docs[k].len]
    }

    ghost function Shelf(): Shelves<DocumentBody>
      requires Owned()
      reads this, Arrays()
    {
      map k | k in docs :: Items(k)
    }

    lemma ShelfIs(m: Shelves<DocumentBody>)
      requires Owned() && docs.Keys == m.Keys
      requires forall k | k in docs :: Items(k) == m[k]
      ensures Shelf() == m
    {
    }

    /** Stores a document whose content nothing else in the store holds. */
    method Add(appId: string, doc: Document)
      requires Valid() && Unshared(Shelf(), doc.item.content)
      modifies this, Arrays()
      ensures Valid() && Shelf() == WithItem(old(Shelf()), appId, doc)
    {
      AddKeepsDisjoint(Shelf(), appId, doc);
      Shelve(appId, doc);
    }

    method Shelve(appId: string, doc: Document)
      requires Owned()
      modifies this, Arrays()
      ensures Owned() && Shelf() == WithItem(old(Shelf()), appId, doc)
    {
      ghost var before := Shelf();
      var slice: Slice<Document>;
      if appId in docs {
        slice := docs[appId];
        assert slice.arr in Arrays();
      } else {
        var empty := new Document[0];
        slice := Slice(empty, 0);
      }
      var longer := Append(slice, doc);
      assert forall k | k in docs && k != appId :: Items(k) == before[k];
      docs := docs[appId := longer];
      ShelfIs(WithItem(before, appId, doc));
    }

    method SweepSlice(appId: string, now: Time, ghost items: seq<Document>) returns (removed: nat)
      requires Owned() && appId in docs && items == Items(appId) && DistinctContents(items)
      modifies this, docs[appId].arr, ContentsOf(items)
      ensures Owned() && docs.Keys == old(docs.Keys) && Items(appId) == Kept(items, now)
      ensures removed == |items| - |Kept(items, now)|
      ensures forall k | k in docs :: k in old(docs) && docs[k].arr == old(docs[k].arr)
      ensures forall k | k in docs && k != appId :: Items(k) == old(Items(k))
      ensures forall i | 0 <= i < |items| ::
        items[i].item.content[..] == Redacted(items[i], old(items[i].item.content[..]), now)
    {
      var slice := docs[appId];
      var kept := CompactDocuments(slice.arr, slice.len, now, items);
      docs := docs[appId := Slice(slice.arr, kept)];
      removed := slice.len - kept;
    }

    /** The same, seen on the whole shelf. */
    method SweepShelf(appId: string, now: Time, ghost items: seq<Document>) returns (removed: nat)
      requires Owned() && appId in docs && items == Items(appId) && DistinctContents(items)
      modifies this, docs[appId].arr, ContentsOf(items)
      ensures Owned() && docs.Keys == old(docs.Keys) && forall k | k in docs :: docs[k].arr == old(docs[k].arr)
      ensures Shelf() == old(Shelf())[appId := Kept(items, now)]
      ensures removed == |items| - |Kept(items, now)|
      ensures forall i | 0 <= i < |items| ::
        items[i].item.content[..] == Redacted(items[i], old(items[i].item.content[..]), now)
    {
      ghost var shelf := Shelf();
      removed := SweepSlice(appId, now, items);
      ShelfIs(shelf[appId := Kept(items, now)]);
    }

    /** Sweeps one slice: of all the documents of `m`, only its own are redacted. */
    method SweepOf(appId: string, now: Time, ghost m: Shelves<DocumentBody>) returns (removed: nat)
      requires Owned() && appId in docs && appId in m && m[appId] == Items(appId) && Disjoint(m)
      modifies this, docs[appId].arr, ContentsOf(m[appId])
      ensures Owned() && docs.Keys == old(docs.Keys) && forall k | k in docs :: docs[k].arr == old(docs[k].arr)
      ensures Shelf() == old(Shelf())[appId := Kept(m[appId], now)]
      ensures removed == |m[appId]| - |Kept(m[appId], now)|
      ensures AllBytes(m) == old(AllBytes(m))[appId := RedactedAll(m[appId], old(AllBytes(m)[appId]), now)]
    {
      ghost var was := AllBytes(m);
      OthersAreApart(m, appId);
      assert forall k, i | k in m && k != appId && 0 <= i < |m[k]| :: m[k][i].item.content[..] == was[k][i];
      removed := SweepShelf(appId, now, m[appId]);
      assert forall k, i | k in m && k != appId && 0 <= i < |m[k]| :: m[k][i].item.content[..] == was[k][i];
      OthersKeepBytes(m, was, appId, now);
    }

    /** In the middle of a sweep of `m`: the shelves in `left` are still to be done. */
    ghost predicate MidSweep(m: Shelves<DocumentBody>, was: map<string, seq<seq<Byte>>>, left: set<string>, now: Time)
      requires was.Keys == m.Keys && forall k | k in m :: |was[k]| == |m[k]|
      reads this, Arrays(), ContentsIn(m)
    {
      && Owned() && docs.Keys == m.Keys && left <= m.Keys
      && Shelf() == Mixed(m, Swept(m, now), left)
      && AllBytes(m) == Mixed(was, RedactedShelves(m, was, now), left)
    }

    method SweepRound(appId: string, now: Time, ghost m: Shelves<DocumentBody>,
                      ghost was: map<string, seq<seq<Byte>>>, ghost left: set<string>)
      returns (removed: nat)
      requires was.Keys == m.Keys && forall k | k in m :: |was[k]| == |m[k]|
      requires MidSweep(m, was, left, now) && appId in left && Disjoint(m)
      modifies this, docs[appId].arr, ContentsOf(m[appId])
      ensures forall k | k in docs :: k in old(docs) && docs[k].arr == old(docs[k].arr)
      ensures MidSweep(m, was, left - {appId}, now)
      ensures removed + Total(Shelf()) == Total(old(Shelf()))
    {
      RoundAdvances(m, was, Shelf(), left, appId, now);
      removed := SweepOf(appId, now, m);
    }

    method SweepRounds(now: Time, ghost m: Shelves<DocumentBody>, ghost was: map<string, seq<seq<Byte>>>)
      returns (removed: nat)
      requires was.Keys == m.Keys && forall k | k in m :: |was[k]| == |m[k]|
      requires MidSweep(m, was, m.Keys, now) && Disjoint(m)
      modifies this, Arrays(), ContentsIn(m)
      ensures MidSweep(m, was, {}, now)
      ensures removed + Total(Shelf()) == Total(old(Shelf()))
    {
      removed := 0;
      var left := docs.Keys;
      while left != {}
        invariant MidSweep(m, was, left, now)
        invariant forall k | k in docs :: k in old(docs) && docs[k].arr == old(docs[k].arr)
        invariant removed + Total(Shelf()) == Total(old(Shelf()))
      {
        var appId :| appId in left;
        assert docs[appId].arr in old(Arrays());
        assert ContentsOf(m[appId]) <= ContentsIn(m);
        var n := SweepRound(appId, now, m, was, left);
        removed := removed + n;
        left := left - {appId};
      }
    }

    /** Drops every expired document, zeroes its content, and counts it. */
    method SweepExpired(now: Time) returns (removed: nat)
      requires Valid()
      modifies this, Arrays(), ContentsIn(Shelf())
      ensures Valid() && Shelf() == Swept(old(Shelf()), now)
      ensures removed == Total(old(Shelf())) - Total(Shelf())
      ensures AllBytes(old(Shelf())) == RedactedShelves(old(Shelf()), old(AllBytes(Shelf())), now)
      ensures SurvivorsOf(old(Shelf()), Shelf(), now)
      ensures BytesAfterSweep(old(Shelf()), old(AllBytes(Shelf())), AllBytes(old(Shelf())), now)
    {
      SweptExactly(Shelf(), now);
      RedactedExactly(Shelf(), AllBytes(Shelf()), now);
      removed := SweepAll(now);
    }

    method SweepAll(now: Time) returns (removed: nat)
      requires Valid()
      modifies this, Arrays(), ContentsIn(Shelf())
      ensures Valid() && Shelf() == Swept(old(Shelf()), now)
      ensures removed == Total(old(Shelf())) - Total(Shelf())
      ensures AllBytes(old(Shelf())) == RedactedShelves(old(Shelf()), old(AllBytes(Shelf())), now)
    {
      ghost var m, was := Shelf(), AllBytes(Shelf());
      SweepKeepsDisjoint(m, now);
      MixedEnds(m, Swept(m, now));
      MixedEnds(was, RedactedShelves(m, was, now));
      removed := SweepRounds(now, m, was);
    }

    /** A copy of the list; the contents are shared with the store. */
    method List(appId: string) returns (out: seq<Document>)
      requires Valid()
      ensures out == if appId in docs then Shelf()[appId] else []
    {
      out := if appId in docs then docs[appId].arr[..docs[appId].len] else [];
    }

    method HasRequiredDocs(appId: string) returns (has: bool)
      requires Valid()
      ensures has <==> appId in docs && HasRequired(DocTypes(Shelf()[appId]))
    {
      if appId !in docs {
        return false;
      }
      var hasId, hasSelfie := false, false;
      var slice := docs[appId];
      for i := 0 to slice.len
        invariant hasId <==> exists k :: 0 <= k < i && slice.arr[k].item.docType == IdFront
        invariant hasSelfie <==> exists k :: 0 <= k < i && slice.arr[k].item.docType == Selfie
      {
        match slice.arr[i].item.docType
        case IdFront => hasId := true;
        case Selfie => hasSelfie := true;
        case _ =>
      }
      ghost var types := DocTypes(Shelf()[appId]);
      assert forall k | 0 <= k < slice.len :: types[k] == slice.arr[k].item.docType;
      has := hasId && hasSelfie;
    }
  }

  // ---- liveness sessions ----

  datatype SessionBody = SessionBody(id: string, applicationId: string, vendorSessionId: string, status: string,
                                     startedAt: Time, completedAt: Time, result: string)

  type Session = Held<SessionBody>

  class LivenessStore {
    var sessions: map<string, Slice<Session>>

    constructor ()
      ensures Valid() && Shelf() == map[]
    {
      sessions := map[];
    }

    ghost function Arrays(): set<array<Session>>
      reads this
    {
      set k | k in sessions :: sessions[k].arr
    }

    ghost predicate Valid()
      reads this
    {
      && (forall k | k in sessions :: sessions[k].len <= sessions[k].arr.Length)
      && (forall j, k | j in sessions && k in sessions && j != k :: sessions[j].arr != sessions[k].arr)
    }

    ghost function Items(k: string): seq<Session>
      requires k in sessions && sessions[k].len <= sessions[k].arr.Length
      reads this, sessions[k].arr
    {
      sessions[k].arr[..sessions[k].len]
    }

    ghost function Shelf(): Shelves<SessionBody>
      requires Valid()
      reads this, Arrays()
    {
      map k | k in sessions :: Items(k)
    }

    lemma ShelfIs(m: Shelves<SessionBody>)
      requires Valid() && sessions.Keys == m.Keys
      requires forall k | k in sessions :: Items(k) == m[k]
      ensures Shelf() == m
    {
    }

    method Add(appId: string, s: Session)
      requires Valid()
      modifies this, Arrays()
      ensures Valid() && Shelf() == WithItem(old(Shelf()), appId, s)
    {
      ghost var before := Shelf();
      var slice: Slice<Session>;
      if appId in sessions {
        slice := sessions[appId];
        assert slice.arr in Arrays();
      } else {
        var empty := new Session[0];
        slice := Slice(empty, 0);
      }
      var longer := Append(slice, s);
      assert forall k | k in sessions && k != appId :: Items(k) == before[k];
      sessions := sessions[appId := longer];
      ShelfIs(WithItem(before, appId, s));
    }

    /** The session added last, of those still held. */
    method Latest(appId: string) returns (s: Option<Session>)
      requires Valid()
      ensures s == var m := Shelf();
        if appId in m && m[appId] != [] then Some(m[appId][|m[appId]| - 1]) else None
    {
      if appId !in sessions || sessions[appId].len == 0 {
        return None;
      }
      s := Some(sessions[appId].arr[sessions[appId].len - 1]);
    }

    method SweepOf(appId: string, now: Time) returns (removed: nat)
      requires Valid() && appId in sessions
      modifies this, sessions[appId].arr
      ensures Valid() && forall k | k in sessions :: k in old(sessions) && sessions[k].arr == old(sessions[k].arr)
      ensures Shelf() == old(Shelf())[appId := Kept(old(Items(appId)), now)]
      ensures removed == |old(Items(appId))| - |Kept(old(Items(appId)), now)|
    {
      ghost var shelf := Shelf();
      var slice := sessions[appId];
      var kept := Compact(slice.arr, slice.len, now);
      assert forall k | k in sessions && k != appId :: Items(k) == shelf[k];
      sessions := sessions[appId := Slice(slice.arr, kept)];
      ShelfIs(shelf[appId := Kept(shelf[appId], now)]);
      removed := slice.len - kept;
    }

    ghost predicate MidSweep(m: Shelves<SessionBody>, left: set<string>, now: Time)
      reads this, Arrays()
    {
      Valid() && left <= sessions.Keys == m.Keys && Shelf() == Mixed(m, Swept(m, now), left)
    }

    method SweepRound(appId: string, now: Time, ghost m: Shelves<SessionBody>, ghost left: set<string>)
      returns (removed: nat)
      requires MidSweep(m, left, now) && appId in left
      modifies this, sessions[appId].arr
      ensures forall k | k in sessions :: k in old(sessions) && sessions[k].arr == old(sessions[k].arr)
      ensures MidSweep(m, left - {appId}, now)
      ensures removed + Total(Shelf()) == Total(old(Shelf()))
    {
      ghost var shelf, kept := Shelf(), Kept(m[appId], now);
      assert shelf[appId] == m[appId] == Items(appId);
      removed := SweepOf(appId, now);
      assert Shelf() == shelf[appId := kept];
      TotalUpdate(shelf, appId, kept);
      MixedStep(m, Swept(m, now), left, appId);
    }

    /** Drops every expired session and counts them. */
    method SweepExpired(now: Time) returns (removed: nat)
      requires Valid()
      modifies this, Arrays()
      ensures Valid() && Shelf() == Swept(old(Shelf()), now)
      ensures removed == Total(old(Shelf())) - Total(Shelf())
      ensures SurvivorsOf(old(Shelf()), Shelf(), now)
    {
      SweptExactly(Shelf(), now);
      removed := SweepAll(now);
    }

    method SweepAll(now: Time) returns (removed: nat)
      requires Valid()
      modifies this, Arrays()
      ensures Valid() && Shelf() == Swept(old(Shelf()), now)
      ensures removed == Total(old(Shelf())) - Total(Shelf())
    {
      ghost var m := Shelf();
      MixedEnds(m, Swept(m, now));
      removed := 0;
      var left := sessions.Keys;
      while left != {}
        invariant MidSweep(m, left, now)
        invariant forall k | k in sessions :: k in old(sessions) && sessions[k].arr == old(sessions[k].arr)
        invariant removed + Total(Shelf()) == Total(m)
      {
        var appId :| appId in left;
        assert sessions[appId].arr in old(Arrays());
        var n := SweepRound(appId, now, m, left);
        removed := removed + n;
        left := left - {appId};
      }
    }
  }
}
