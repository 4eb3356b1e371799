/** The byte stream that is hashed to name a dirty working tree: every path and
    every content is preceded by its length as eight big-endian bytes. */
module SourceRevision {
  import opened Common

  type byte = n: nat | n < 256

  // ----------------------------------------------------- big-endian integers

  function Power256(k: nat): nat {
    if k == 0 then 1 else 256 * Power256(k - 1)
  }

  /** `n.to_bytes(k, "big")`, for an `n` that fits. */
  function BigEndian(n: nat, k: nat): seq<byte>
    decreases k
  {
    if k == 0 then [] else BigEndian(n / 256, k - 1) + [n % 256]
  }

  function FromBigEndian(bs: seq<byte>): nat {
    if bs == [] then 0 else 256 * FromBigEndian(bs[..|bs| - 1]) + bs[|bs| - 1]
  }

  lemma {:induction false} BigEndianReadsBack(n: nat, k: nat)
    requires n < Power256(k)
    ensures |BigEndian(n, k)| == k && FromBigEndian(BigEndian(n, k)) == n
    decreases k
  {
    if k > 0 {
      BigEndianReadsBack(n / 256, k - 1);
      var bs := BigEndian(n, k);
      assert bs[..|bs| - 1] == BigEndian(n / 256, k - 1);
    }
  }

  lemma OneMoreByte(bs: seq<byte>, k: nat)
    requires k < |bs|
    ensures FromBigEndian(bs[..k + 1]) == 256 * FromBigEndian(bs[..k]) + bs[k]
  {
    assert bs[..k + 1][..k] == bs[..k];
  }

  /** The number with these eight base-256 digits, the most significant first. */
  function Digits(a: int, b: int, c: int, d: int, e: int, f: int, g: int, h: int): int {
    256 * (256 * (256 * (256 * (256 * (256 * (256 * a + b) + c) + d) + e) + f) + g) + h
  }

  lemma EightBytesWeigh(bs: seq<byte>)
    requires |bs| == 8
    ensures FromBigEndian(bs) == Digits(bs[0], bs[1], bs[2], bs[3], bs[4], bs[5], bs[6], bs[7])
  {
    assert bs[..0] == [] && bs[..8] == bs;
    OneMoreByte(bs, 0); OneMoreByte(bs, 1); OneMoreByte(bs, 2); OneMoreByte(bs, 3);
    OneMoreByte(bs, 4); OneMoreByte(bs, 5); OneMoreByte(bs, 6); OneMoreByte(bs, 7);
  }

  lemma EightBytesHoldUint64()
    ensures Power256(8) == UINT64_LIMIT
  {
    assert Power256(4) == 0x1_0000_0000;
    assert Power256(8) == 256 * (256 * (256 * (256 * Power256(4))));
  }

  // --------------------------------------------------------------- the stream

  datatype Item = Item(path: seq<byte>, content: seq<byte>)

  /** `to_bytes(8, ...)` raises for a longer path or content. */
  predicate Encodable(items: seq<Item>) {
    forall i :: 0 <= i < |items| ==> |items[i].path| < UINT64_LIMIT && |items[i].content| < UINT64_LIMIT
  }

  const PREFIX_BYTES: nat := 8

  function Prefixed(bs: seq<byte>): seq<byte> {
    BigEndian(|bs|, PREFIX_BYTES) + bs
  }

  function Encoded(item: Item): seq<byte> {
    Prefixed(item.path) + Prefixed(item.content)
  }

  function Stream(items: seq<Item>): seq<byte> {
    if items == [] then [] else Encoded(items[0]) + Stream(items[1..])
  }

  /** Two updates of the running digest: the length and the bytes. */
  method UpdateField(digested: seq<byte>, field: seq<byte>) returns (updated: seq<byte>)
    requires |field| < UINT64_LIMIT
    ensures updated == digested + Prefixed(field)
  {
    updated := digested + BigEndian(|field|, PREFIX_BYTES);
    updated := updated + field;
  }

  /** Everything given to the running digest, in order. */
  method DigestInput(items: seq<Item>) returns (digested: seq<byte>)
    requires Encodable(items)
    ensures digested == Stream(items)
  {
    digested := [];
    for i := 0 to |items|
      invariant digested == Stream(items[..i])
    {
      StreamPrefix(items, i);
      digested := UpdateField(digested, items[i].path);
      digested := UpdateField(digested, items[i].content);
    }
    assert items[..|items|] == items;
  }

  lemma StreamPrefix(items: seq<Item>, i: nat)
    requires i < |items|
    ensures Stream(items[..i + 1]) == Stream(items[..i]) + Prefixed(items[i].path) + Prefixed(items[i].content)
  {
    assert items[..i + 1] == items[..i] + [items[i]];
    StreamGrows(items[..i], items[i]);
  }

  lemma {:induction false} StreamGrows(items: seq<Item>, item: Item)
    ensures Stream(items + [item]) == Stream(items) + Encoded(item)
    decreases |items|
  {
    if items == [] {
      assert items + [item] == [item] && [item][1..] == [];
    } else {
      assert (items + [item])[1..] == items[1..] + [item];
      StreamGrows(items[1..], item);
    }
  }

  // ------------------------------------------------------------- reading back

  /** A field is its length in eight bytes, the most significant first, and then its bytes. */
  lemma FieldLayout(field: seq<byte>)
    requires |field| < UINT64_LIMIT
    ensures var bs := Prefixed(field);
            && |bs| == 8 + |field| && bs[8..] == field
            && |field| == Digits(bs[0], bs[1], bs[2], bs[3], bs[4], bs[5], bs[6], bs[7])
  {
    EightBytesHoldUint64();
    BigEndianReadsBack(|field|, PREFIX_BYTES);
    EightBytesWeigh(BigEndian(|field|, PREFIX_BYTES));
  }

  /** A missing file is hashed as the text `<deleted>`, a file as its own bytes. */
  lemma MissingFileText(path: seq<byte>, content: seq<byte>)
    ensures Items([Listed(path, File(content))]) == [Item(path, content)]
    ensures |DELETED| == |"<deleted>"| && forall i :: 0 <= i < |DELETED| ==> DELETED[i] == "<deleted>"[i] as int
    ensures Items([Listed(path, NotAFile)]) == [Item(path, DELETED)]
  {
  }

  /** Takes one length-prefixed field off the front. */
  function TakeField(bs: seq<byte>): Option<(seq<byte>, seq<byte>)> {
    if |bs| < 8 then None
    else
      var n := FromBigEndian(bs[..8]);
      if |bs| - 8 < n then None else Some((bs[8..8 + n], bs[8 + n..]))
  }

  lemma TakeFieldTakes(field: seq<byte>, rest: seq<byte>)
    requires |field| < UINT64_LIMIT
    ensures TakeField(Prefixed(field) + rest) == Some((field, rest))
  {
    EightBytesHoldUint64();
    BigEndianReadsBack(|field|, PREFIX_BYTES);
    var bs := Prefixed(field) + rest;
    assert bs[..8] == BigEndian(|field|, PREFIX_BYTES);
    assert bs[8..8 + |field|] == field && bs[8 + |field|..] == rest;
  }

  function Parse(bs: seq<byte>): Option<seq<Item>>
    decreases |bs|
  {
    if bs == [] then Some([])
    else
      var path := TakeField(bs);
      if path.None? then None
      else
        var content := TakeField(path.value.1);
        if content.None? then None
        else
          var rest := Parse(content.value.1);
          if rest.None? then None else Some([Item(path.value.0, content.value.0)] + rest.value)
  }

  lemma ParseTakesItem(item: Item, rest: seq<byte>)
    requires |item.path| < UINT64_LIMIT && |item.content| < UINT64_LIMIT && Parse(rest).Some?
    ensures Parse(Encoded(item) + rest) == Some([item] + Parse(rest).value)
  {
    assert Encoded(item) + rest == Prefixed(item.path) + (Prefixed(item.content) + rest);
    TakeFieldTakes(item.path, Prefixed(item.content) + rest);
    TakeFieldTakes(item.content, rest);
  }

  /** The stream can be taken apart again, whatever the list's length and bytes. */
  lemma {:induction false} ParseReadsBack(items: seq<Item>)
    requires Encodable(items)
    ensures Parse(Stream(items)) == Some(items)
    decreases |items|
  {
    if items != [] {
      ParseReadsBack(items[1..]);
      ParseTakesItem(items[0], Stream(items[1..]));
      assert items == [items[0]] + items[1..];
    }
  }

  /** Different lists of (path, content) pairs give different streams. */
  lemma StreamIsInjective(a: seq<Item>, b: seq<Item>)
    requires Encodable(a) && Encodable(b) && Stream(a) == Stream(b)
    ensures a == b
  {
    ParseReadsBack(a);
    ParseReadsBack(b);
  }

  // ----------------------------------------------------------- working trees

  /** What a listed path is on disk. */
  datatype Entry = File(content: seq<byte>) | NotAFile

  datatype Listed = Listed(path: seq<byte>, entry: Entry)

  /** The bytes of `<deleted>`. */
  const DELETED: seq<byte> := [60, 100, 101, 108, 101, 116, 101, 100, 62]

  function ContentOf(e: Entry): seq<byte> {
    if e.File? then e.content else DELETED
  }

  function Items(tree: seq<Listed>): seq<Item> {
    seq(|tree|, i requires 0 <= i < |tree| => Item(tree[i].path, ContentOf(tree[i].entry)))
  }

  /** A missing file and a file holding the text `<deleted>`. */
  predicate Confused(a: Entry, b: Entry) {
    (a.NotAFile? && b == File(DELETED)) || (b.NotAFile? && a == File(DELETED))
  }

  ghost predicate SameUpToConfusion(a: seq<Listed>, b: seq<Listed>) {
    && |a| == |b|
    && forall i :: 0 <= i < |a| ==>
         a[i].path == b[i].path && (a[i].entry == b[i].entry || Confused(a[i].entry, b[i].entry))
  }

  lemma SameItemsIff(a: seq<Listed>, b: seq<Listed>)
    ensures Items(a) == Items(b) <==> SameUpToConfusion(a, b)
  {
    if Items(a) == Items(b) {
      assert |a| == |Items(a)| == |Items(b)| == |b|;
      forall i | 0 <= i < |a|
        ensures a[i].path == b[i].path && (a[i].entry == b[i].entry || Confused(a[i].entry, b[i].entry))
      {
        assert Items(a)[i] == Items(b)[i];
      }
    }
  }

  /** Two working trees get the same stream exactly when they list the same paths
      with the same entries, up to that one confusion. */
  lemma TreesCollideIff(a: seq<Listed>, b: seq<Listed>)
    requires Encodable(Items(a)) && Encodable(Items(b))
    ensures Stream(Items(a)) == Stream(Items(b)) <==> SameUpToConfusion(a, b)
  {
    SameItemsIff(a, b);
    if Stream(Items(a)) == Stream(Items(b)) {
      StreamIsInjective(Items(a), Items(b));
    }
  }

  /** The confusion is real: two different trees, one stream. */
  lemma DeletedFileCollides(path: seq<byte>)
    requires |path| < UINT64_LIMIT
    ensures Listed(path, NotAFile) != Listed(path, File(DELETED))
    ensures Stream(Items([Listed(path, NotAFile)])) == Stream(Items([Listed(path, File(DELETED))]))
  {
    assert Items([Listed(path, NotAFile)]) == Items([Listed(path, File(DELETED))]);
  }
}
