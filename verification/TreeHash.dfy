/** What the hash of a directory tree identifies. */
module TreeHash {
  import opened Wrappers
  import opened Sorting
  import opened Sequences

  type Byte = x: int | 0 <= x < 256
  type Bytes = seq<Byte>

  /** What a directory entry is: a file by the digest of its contents, a link by its text. */
  datatype Node = File(digest: Bytes) | Directory(entries: Listing) | Link(target: Bytes) | Other

  /** A directory in the order in which it is read. */
  datatype Listing = Nil | Cons(name: Bytes, node: Node, rest: Listing)

  datatype HashError = UnexpectedLink | DanglingLink | EscapedLink | Unsupported | TooLong

  const SLASH: Byte := 47
  const DOT: Byte := 46
  const LINK: Bytes := [108, 105, 110, 107]
  const DIRECTORY: Bytes := [100, 105, 114, 101, 99, 116, 111, 114, 121]
  const FILE: Bytes := [102, 105, 108, 101]

  // ----- directories in order -----

  function Insert(before: (Bytes, Bytes) -> bool, name: Bytes, node: Node, listing: Listing): Listing {
    if listing.Nil? || !before(listing.name, name) then Cons(name, node, listing)
    else Cons(listing.name, listing.node, Insert(before, name, node, listing.rest))
  }

  /** Every directory sorted by name. */
  function Arrange(before: (Bytes, Bytes) -> bool, listing: Listing): Listing {
    if listing.Nil? then Nil
    else Insert(before, listing.name, ArrangeNode(before, listing.node), Arrange(before, listing.rest))
  }

  function ArrangeNode(before: (Bytes, Bytes) -> bool, node: Node): Node {
    match node
    case Directory(entries) => Directory(Arrange(before, entries))
    case _ => node
  }

  // ----- the records and the bytes -----

  datatype Record = FileAt(path: Bytes, digest: Bytes) | DirectoryAt(path: Bytes) | LinkAt(path: Bytes, target: Bytes)

  /** What the path of an entry begins with: the path of its directory, relative to the root. */
  function Base(directory: Bytes): Bytes {
    if directory == [] then [] else directory + [SLASH]
  }

  function Path(directory: Bytes, name: Bytes): Bytes {
    Base(directory) + name
  }

  function Records(directory: Bytes, listing: Listing): seq<Record>
    decreases listing
  {
    if listing.Nil? then []
    else NodeRecords(Path(directory, listing.name), listing.node) + Records(directory, listing.rest)
  }

  function NodeRecords(path: Bytes, node: Node): seq<Record>
    decreases node
  {
    match node
    case File(digest) => [FileAt(path, digest)]
    case Directory(entries) => [DirectoryAt(path)] + Records(path, entries)
    case Link(target) => [LinkAt(path, target)]
    case Other => []
  }

  function RecordFields(record: Record): seq<Bytes> {
    match record
    case FileAt(path, digest) => [path, FILE, digest]
    case DirectoryAt(path) => [path, DIRECTORY]
    case LinkAt(path, target) => [path, LINK, target]
  }

  function Fields(records: seq<Record>): seq<Bytes> {
    if records == [] then [] else RecordFields(records[0]) + Fields(records[1..])
  }

  const LENGTHS: int := 0x1_0000_0000

  predicate Short(field: Bytes) {
    |field| < LENGTHS
  }

  /** Four bytes, most significant first. */
  function LengthBytes(n: nat): Bytes
    requires n < LENGTHS
  {
    [n / 256 / 256 / 256, n / 256 / 256 % 256, n / 256 % 256, n % 256]
  }

  predicate AllShort(fields: seq<Bytes>) {
    forall f :: f in fields ==> Short(f)
  }

  function Framed(field: Bytes): Bytes
    requires Short(field)
  {
    LengthBytes(|field|) + field
  }

  function Stream(fields: seq<Bytes>): Bytes
    requires AllShort(fields)
  {
    if fields == [] then [] else Framed(fields[0]) + Stream(fields[1..])
  }

  // ----- the stream determines the records -----

  lemma LengthBytesDiffer(m: nat, n: nat)
    requires m < LENGTHS && n < LENGTHS && LengthBytes(m) == LengthBytes(n)
    ensures m == n
  {
    assert LengthBytes(m)[0] == LengthBytes(n)[0] && LengthBytes(m)[1] == LengthBytes(n)[1];
    assert LengthBytes(m)[2] == LengthBytes(n)[2] && LengthBytes(m)[3] == LengthBytes(n)[3];
    assert m / 256 / 256 == n / 256 / 256;
    assert m / 256 == n / 256;
  }

  lemma FrameDecodes(a: Bytes, b: Bytes, x: Bytes, y: Bytes)
    requires Short(a) && Short(b) && Framed(a) + x == Framed(b) + y
    ensures a == b && x == y
  {
    var s, t := Framed(a) + x, Framed(b) + y;
    assert s[..4] == LengthBytes(|a|) && t[..4] == LengthBytes(|b|);
    LengthBytesDiffer(|a|, |b|);
    var end := 4 + |a|;
    assert s[4..end] == a && t[4..end] == b;
    assert s[end..] == x && t[end..] == y;
  }

  lemma {:induction false} StreamEmpty(a: seq<Bytes>)
    requires AllShort(a)
    ensures Stream(a) == [] <==> a == []
  {
  }

  lemma {:induction false} StreamDecodes(a: seq<Bytes>, b: seq<Bytes>)
    requires AllShort(a) && AllShort(b) && Stream(a) == Stream(b)
    ensures a == b
    decreases |a|
  {
    StreamEmpty(a);
    StreamEmpty(b);
    if a != [] {
      FrameDecodes(a[0], b[0], Stream(a[1..]), Stream(b[1..]));
      StreamDecodes(a[1..], b[1..]);
      assert a == [a[0]] + a[1..] && b == [b[0]] + b[1..];
    }
  }

  lemma FirstRecordDecodes(r: Record, s: Record, x: seq<Bytes>, y: seq<Bytes>)
    requires RecordFields(r) + x == RecordFields(s) + y
    ensures r == s && x == y
  {
    var a, b := RecordFields(r) + x, RecordFields(s) + y;
    assert a[0] == r.path && b[0] == s.path;
    assert a[1] == RecordFields(r)[1] && b[1] == RecordFields(s)[1];
    assert |LINK| == 4 && |DIRECTORY| == 9 && |FILE| == 4 && LINK[0] != FILE[0];
    var n := |RecordFields(r)|;
    assert n == |RecordFields(s)|;
    assert n == 3 ==> a[2] == RecordFields(r)[2] && b[2] == RecordFields(s)[2];
    assert a[n..] == x && b[n..] == y;
  }

  lemma {:induction false} FieldsEmpty(r: seq<Record>)
    ensures Fields(r) == [] <==> r == []
  {
  }

  lemma {:induction false} FieldsDecode(r: seq<Record>, s: seq<Record>)
    requires Fields(r) == Fields(s)
    ensures r == s
    decreases |r|
  {
    FieldsEmpty(r);
    FieldsEmpty(s);
    if r != [] {
      FirstRecordDecodes(r[0], s[0], Fields(r[1..]), Fields(s[1..]));
      FieldsDecode(r[1..], s[1..]);
      assert r == [r[0]] + r[1..] && s == [s[0]] + s[1..];
    }
  }

  // ----- the records determine the tree -----

  function Names(listing: Listing): set<Bytes> {
    if listing.Nil? then {} else {listing.name} + Names(listing.rest)
  }

  predicate GoodName(name: Bytes) {
    name != [] && SLASH !in name
  }

  /** What a file system guarantees: names in a directory differ, are not empty and hold no separator. */
  predicate Proper(listing: Listing) {
    listing.Nil?
    || (GoodName(listing.name) && listing.name !in Names(listing.rest) && ProperNode(listing.node)
         && Proper(listing.rest))
  }

  /** Entries that are neither files, directories nor links are refused before anything is hashed for them. */
  predicate ProperNode(node: Node) {
    match node
    case Directory(entries) => Proper(entries)
    case Other => false
    case _ => true
  }

  function UpToSlash(s: Bytes): Bytes {
    if s == [] || s[0] == SLASH then [] else [s[0]] + UpToSlash(s[1..])
  }

  lemma {:induction false} UpToSlashIsName(name: Bytes, after: Bytes)
    requires SLASH !in name && (after != [] ==> after[0] == SLASH)
    ensures UpToSlash(name + after) == name
  {
    if name == [] {
      assert name + after == after;
    } else {
      assert (name + after)[1..] == name[1..] + after;
      UpToSlashIsName(name[1..], after);
    }
  }

  predicate Within(directory: Bytes, path: Bytes) {
    Base(directory) <= path
  }

  /** The entry of `directory` on the way to `path`. */
  function EntryName(directory: Bytes, path: Bytes): Bytes
    requires Within(directory, path)
  {
    UpToSlash(path[|Base(directory)|..])
  }

  lemma EntryItself(directory: Bytes, name: Bytes)
    requires GoodName(name)
    ensures Within(directory, Path(directory, name)) && EntryName(directory, Path(directory, name)) == name
  {
    var path := Path(directory, name);
    assert path[|Base(directory)|..] == name + [];
    UpToSlashIsName(name, []);
  }

  lemma EntryBelow(directory: Bytes, name: Bytes, path: Bytes)
    requires GoodName(name) && Within(Path(directory, name), path)
    ensures Within(directory, path) && EntryName(directory, path) == name
  {
    var own := Base(directory) + name + [SLASH];
    assert Base(Path(directory, name)) == own;
    var after := [SLASH] + path[|own|..];
    assert path == own + path[|own|..];
    assert path[|Base(directory)|..] == name + after;
    UpToSlashIsName(name, after);
  }

  predicate EntryAmong(directory: Bytes, names: set<Bytes>, path: Bytes) {
    Within(directory, path) && EntryName(directory, path) in names
  }

  lemma {:induction false} RecordsAmong(directory: Bytes, listing: Listing)
    requires Proper(listing)
    ensures forall r :: r in Records(directory, listing) ==> EntryAmong(directory, Names(listing), r.path)
    decreases listing
  {
    if listing.Cons? {
      RecordsAmong(directory, listing.rest);
      NodeAmong(directory, listing.name, listing.node);
    }
  }

  lemma {:induction false} NodeAmong(directory: Bytes, name: Bytes, node: Node)
    requires GoodName(name) && ProperNode(node)
    ensures forall r :: r in NodeRecords(Path(directory, name), node) ==> EntryAmong(directory, {name}, r.path)
    decreases node
  {
    var path := Path(directory, name);
    EntryItself(directory, name);
    if node.Directory? {
      RecordsAmong(path, node.entries);
      forall r | r in Records(path, node.entries) ensures EntryAmong(directory, {name}, r.path) {
        EntryBelow(directory, name, r.path);
      }
    }
  }

  predicate NoneWithin(directory: Bytes, records: seq<Record>) {
    forall r :: r in records ==> !Within(directory, r.path)
  }

  /** Nothing recorded after an entry's own records lies within it. */
  lemma {:induction false} NoneLaterWithin(directory: Bytes, name: Bytes, rest: Listing, after: seq<Record>)
    requires GoodName(name) && Proper(rest) && name !in Names(rest) && NoneWithin(directory, after)
    ensures NoneWithin(Path(directory, name), Records(directory, rest) + after)
  {
    RecordsAmong(directory, rest);
    forall r | r in Records(directory, rest) + after ensures !Within(Path(directory, name), r.path) {
      if Within(Path(directory, name), r.path) {
        EntryBelow(directory, name, r.path);
      }
    }
  }

  lemma {:induction false} FirstRecord(directory: Bytes, listing: Listing)
    requires Proper(listing) && listing.Cons?
    ensures Records(directory, listing) != [] && Records(directory, listing)[0].path == Path(directory, listing.name)
    ensures Within(directory, Records(directory, listing)[0].path)
  {
  }

  lemma {:induction false} EmptyOrFirst(directory: Bytes, a: Listing, b: Listing, x: seq<Record>, y: seq<Record>)
    requires Proper(a) && Proper(b) && NoneWithin(directory, x) && NoneWithin(directory, y)
    requires Records(directory, a) + x == Records(directory, b) + y
    ensures a.Nil? <==> b.Nil?
    ensures a.Cons? && b.Cons? ==> a.name == b.name
  {
    var r, s := Records(directory, a) + x, Records(directory, b) + y;
    if a.Cons? {
      FirstRecord(directory, a);
      assert r[0] == Records(directory, a)[0];
    }
    if b.Cons? {
      FirstRecord(directory, b);
      assert s[0] == Records(directory, b)[0];
    }
    if a.Cons? && b.Cons? {
      EntryItself(directory, a.name);
      EntryItself(directory, b.name);
    }
  }

  /** Whatever follows, the records of a directory can be told apart from it and give the directory back. */
  lemma {:induction false} RecordsDecode(directory: Bytes, a: Listing, b: Listing, x: seq<Record>, y: seq<Record>)
    requires Proper(a) && Proper(b)
    requires NoneWithin(directory, x) && NoneWithin(directory, y)
    requires Records(directory, a) + x == Records(directory, b) + y
    ensures a == b && x == y
    decreases a
  {
    EmptyOrFirst(directory, a, b, x, y);
    if a.Cons? {
      var more, others := Records(directory, a.rest) + x, Records(directory, b.rest) + y;
      var path := Path(directory, a.name);
      Regroup(NodeRecords(path, a.node), Records(directory, a.rest), x);
      Regroup(NodeRecords(path, b.node), Records(directory, b.rest), y);
      NoneLaterWithin(directory, a.name, a.rest, x);
      NoneLaterWithin(directory, b.name, b.rest, y);
      NodeDecodes(path, a.node, b.node, more, others);
      RecordsDecode(directory, a.rest, b.rest, x, y);
    } else {
      assert [] + x == x && [] + y == y;
    }
  }

  lemma {:induction false} NodeDecodes(path: Bytes, a: Node, b: Node, x: seq<Record>, y: seq<Record>)
    requires ProperNode(a) && ProperNode(b)
    requires NoneWithin(path, x) && NoneWithin(path, y)
    requires NodeRecords(path, a) + x == NodeRecords(path, b) + y
    ensures a == b && x == y
    decreases a
  {
    var p, q := NodeRecords(path, a)[0], NodeRecords(path, b)[0];
    var below, other := Below(path, a), Below(path, b);
    Regroup([p], below, x);
    Regroup([q], other, y);
    HeadSplits(p, q, below + x, other + y);
    if a.Directory? {
      RecordsDecode(path, a.entries, b.entries, x, y);
    } else {
      assert [] + x == x && [] + y == y;
    }
  }

  /** What is recorded within an entry, after the entry itself. */
  function Below(path: Bytes, node: Node): (below: seq<Record>)
    requires !node.Other?
    ensures NodeRecords(path, node) == [NodeRecords(path, node)[0]] + below
  {
    if node.Directory? then Records(path, node.entries) else []
  }

  lemma HeadSplits(p: Record, q: Record, x: seq<Record>, y: seq<Record>)
    requires [p] + x == [q] + y
    ensures p == q && x == y
  {
    var r, s := [p] + x, [q] + y;
    assert r[0] == s[0] && r[1..] == x && s[1..] == y;
  }

  // ----- the order in which a directory is read -----

  predicate HasName(listing: Listing, name: Bytes) {
    listing.Cons? && (listing.name == name || HasName(listing.rest, name))
  }

  function Find(listing: Listing, name: Bytes): Node
    requires HasName(listing, name)
  {
    if listing.name == name then listing.node else Find(listing.rest, name)
  }

  function Without(listing: Listing, name: Bytes): Listing {
    if listing.Nil? then Nil
    else if listing.name == name then listing.rest
    else Cons(listing.name, listing.node, Without(listing.rest, name))
  }

  /** The same tree, perhaps read in another order. */
  predicate SameTree(a: Listing, b: Listing)
    decreases a
  {
    if a.Nil? then b.Nil?
    else HasName(b, a.name) && SameNode(a.node, Find(b, a.name)) && SameTree(a.rest, Without(b, a.name))
  }

  predicate SameNode(a: Node, b: Node)
    decreases a
  {
    if a.Directory? then b.Directory? && SameTree(a.entries, b.entries) else a == b
  }

  ghost predicate Ordered(before: (Bytes, Bytes) -> bool, listing: Listing) {
    listing.Nil?
    || (Ordered(before, listing.rest) && forall n :: n in Names(listing.rest) ==> !before(n, listing.name))
  }

  lemma {:induction false} InsertNames(before: (Bytes, Bytes) -> bool, name: Bytes, node: Node, listing: Listing)
    ensures Names(Insert(before, name, node, listing)) == {name} + Names(listing)
  {
    if listing.Cons? && before(listing.name, name) {
      InsertNames(before, name, node, listing.rest);
    }
  }

  lemma {:induction false} HasNameIsIn(listing: Listing, name: Bytes)
    ensures HasName(listing, name) <==> name in Names(listing)
  {
    if listing.Cons? {
      HasNameIsIn(listing.rest, name);
    }
  }

  lemma {:induction false} ArrangeNames(before: (Bytes, Bytes) -> bool, listing: Listing)
    ensures Names(Arrange(before, listing)) == Names(listing)
  {
    if listing.Cons? {
      ArrangeNames(before, listing.rest);
      InsertNames(before, listing.name, ArrangeNode(before, listing.node), Arrange(before, listing.rest));
    }
  }

  lemma NoneBefore(before: (Bytes, Bytes) -> bool, a: Bytes, b: Bytes, c: Bytes)
    requires StrictWeakOrder(before) && !before(a, b) && !before(b, c)
    ensures !before(a, c)
  {
  }

  lemma {:induction false} InsertOrdered(before: (Bytes, Bytes) -> bool, name: Bytes, node: Node, listing: Listing)
    requires StrictWeakOrder(before) && Ordered(before, listing)
    ensures Ordered(before, Insert(before, name, node, listing))
  {
    if listing.Cons? && before(listing.name, name) {
      InsertOrdered(before, name, node, listing.rest);
      InsertNames(before, name, node, listing.rest);
    } else if listing.Cons? {
      forall n | n in Names(listing) ensures !before(n, name) {
        NoneBefore(before, n, listing.name, name);
      }
    }
  }

  lemma {:induction false} ArrangeOrdered(before: (Bytes, Bytes) -> bool, listing: Listing)
    requires StrictWeakOrder(before)
    ensures Ordered(before, Arrange(before, listing))
  {
    if listing.Cons? {
      ArrangeOrdered(before, listing.rest);
      InsertOrdered(before, listing.name, ArrangeNode(before, listing.node), Arrange(before, listing.rest));
    }
  }

  lemma {:induction false} FindInserted(before: (Bytes, Bytes) -> bool, name: Bytes, node: Node, listing: Listing,
                                        other: Bytes)
    requires name !in Names(listing) && (other == name || HasName(listing, other))
    ensures HasName(Insert(before, name, node, listing), other)
    ensures Find(Insert(before, name, node, listing), other) == if other == name then node else Find(listing, other)
  {
    if listing.Cons? && before(listing.name, name) && other != listing.name {
      FindInserted(before, name, node, listing.rest, other);
    }
  }

  lemma {:induction false} WithoutInserted(before: (Bytes, Bytes) -> bool, name: Bytes, node: Node, listing: Listing)
    requires name !in Names(listing)
    ensures Without(Insert(before, name, node, listing), name) == listing
  {
    if listing.Cons? && before(listing.name, name) {
      WithoutInserted(before, name, node, listing.rest);
    }
  }

  /** Dropping another name and inserting can be done in either order. */
  lemma {:induction false} WithoutOther(before: (Bytes, Bytes) -> bool, name: Bytes, node: Node, listing: Listing,
                                        other: Bytes)
    requires StrictWeakOrder(before) && Ordered(before, listing) && other != name
    ensures Without(Insert(before, name, node, listing), other) == Insert(before, name, node, Without(listing, other))
  {
    if listing.Cons? {
      var rest := listing.rest;
      if before(listing.name, name) {
        if listing.name != other {
          WithoutOther(before, name, node, rest, other);
        }
      } else if listing.name == other && rest.Cons? {
        NoneBefore(before, rest.name, listing.name, name);
      }
    }
  }

  /** Two entries may be inserted in either order, unless their names compare equal. */
  lemma {:induction false} InsertSwaps(before: (Bytes, Bytes) -> bool, m: Bytes, x: Node, n: Bytes, y: Node,
                                       listing: Listing)
    requires StrictWeakOrder(before) && (before(m, n) || before(n, m))
    ensures Insert(before, m, x, Insert(before, n, y, listing)) == Insert(before, n, y, Insert(before, m, x, listing))
  {
    if listing.Cons? && before(listing.name, m) && before(listing.name, n) {
      InsertSwaps(before, m, x, n, y, listing.rest);
    }
  }

  /** Names as a file system guarantees them, at every level. */
  predicate GoodNames(listing: Listing) {
    listing.Nil?
    || (GoodName(listing.name) && listing.name !in Names(listing.rest)
        && (listing.node.Directory? ==> GoodNames(listing.node.entries)) && GoodNames(listing.rest))
  }

  lemma {:induction false} WithoutNames(listing: Listing, name: Bytes)
    requires GoodNames(listing)
    ensures Names(Without(listing, name)) == Names(listing) - {name} && GoodNames(Without(listing, name))
  {
    if listing.Cons? {
      WithoutNames(listing.rest, name);
    }
  }

  lemma {:induction false} FoundNames(listing: Listing, name: Bytes)
    requires GoodNames(listing) && HasName(listing, name)
    ensures Find(listing, name).Directory? ==> GoodNames(Find(listing, name).entries)
  {
    if listing.name != name {
      FoundNames(listing.rest, name);
    }
  }

  lemma {:induction false} FindArranged(before: (Bytes, Bytes) -> bool, listing: Listing, name: Bytes)
    requires GoodNames(listing) && HasName(listing, name)
    ensures HasName(Arrange(before, listing), name)
    ensures Find(Arrange(before, listing), name) == ArrangeNode(before, Find(listing, name))
  {
    if listing.name != name {
      FindArranged(before, listing.rest, name);
    }
    ArrangeNames(before, listing.rest);
    FindInserted(before, listing.name, ArrangeNode(before, listing.node), Arrange(before, listing.rest), name);
  }

  lemma {:induction false} WithoutArranged(before: (Bytes, Bytes) -> bool, listing: Listing, name: Bytes)
    requires StrictWeakOrder(before) && GoodNames(listing)
    ensures Without(Arrange(before, listing), name) == Arrange(before, Without(listing, name))
  {
    if listing.Cons? {
      var node, rest := ArrangeNode(before, listing.node), Arrange(before, listing.rest);
      ArrangeNames(before, listing.rest);
      if listing.name == name {
        WithoutInserted(before, name, node, rest);
      } else {
        ArrangeOrdered(before, listing.rest);
        WithoutOther(before, listing.name, node, rest, name);
        WithoutArranged(before, listing.rest, name);
      }
    }
  }

  lemma {:induction false} ArrangedAlike(before: (Bytes, Bytes) -> bool, a: Listing, b: Listing)
    requires StrictWeakOrder(before) && GoodNames(a) && GoodNames(b) && Arrange(before, a) == Arrange(before, b)
    ensures SameTree(a, b)
    decreases a
  {
    if a.Cons? {
      var n := a.name;
      ArrangeNames(before, a);
      ArrangeNames(before, b);
      HasNameIsIn(b, n);
      FindArranged(before, a, n);
      FindArranged(before, b, n);
      FoundNames(b, n);
      NodesAlike(before, a.node, Find(b, n));
      WithoutArranged(before, a, n);
      WithoutArranged(before, b, n);
      WithoutNames(b, n);
      ArrangedAlike(before, a.rest, Without(b, n));
    }
  }

  lemma {:induction false} NodesAlike(before: (Bytes, Bytes) -> bool, a: Node, b: Node)
    requires StrictWeakOrder(before) && ArrangeNode(before, a) == ArrangeNode(before, b)
    requires (a.Directory? ==> GoodNames(a.entries)) && (b.Directory? ==> GoodNames(b.entries))
    ensures SameNode(a, b)
    decreases a
  {
    if a.Directory? {
      ArrangedAlike(before, a.entries, b.entries);
    }
  }

  // ----- names that compare equal -----

  /** The name is ordered against each of the others. */
  predicate Apart(before: (Bytes, Bytes) -> bool, name: Bytes, others: set<Bytes>) {
    forall n :: n in others ==> before(name, n) || before(n, name)
  }

  /** No directory holds two names that compare equal. */
  predicate NoTies(before: (Bytes, Bytes) -> bool, listing: Listing) {
    listing.Nil?
    || (Apart(before, listing.name, Names(listing.rest))
        && (listing.node.Directory? ==> NoTies(before, listing.node.entries)) && NoTies(before, listing.rest))
  }

  lemma {:induction false} SameNames(a: Listing, b: Listing)
    requires GoodNames(b) && SameTree(a, b)
    ensures Names(a) == Names(b)
  {
    if a.Cons? {
      HasNameIsIn(b, a.name);
      WithoutNames(b, a.name);
      SameNames(a.rest, Without(b, a.name));
    }
  }

  /** An entry may be taken out and inserted into the rest. */
  lemma {:induction false} TakenOut(before: (Bytes, Bytes) -> bool, listing: Listing, name: Bytes)
    requires StrictWeakOrder(before) && GoodNames(listing) && HasName(listing, name)
    requires Apart(before, name, Names(Without(listing, name)))
    ensures Arrange(before, listing)
            == Insert(before, name, ArrangeNode(before, Find(listing, name)), Arrange(before, Without(listing, name)))
  {
    if listing.name != name {
      TakenOut(before, listing.rest, name);
      InsertSwaps(before, listing.name, ArrangeNode(before, listing.node), name,
                  ArrangeNode(before, Find(listing.rest, name)), Arrange(before, Without(listing.rest, name)));
    }
  }

  lemma {:induction false} SameArranged(before: (Bytes, Bytes) -> bool, a: Listing, b: Listing)
    requires StrictWeakOrder(before) && NoTies(before, a) && GoodNames(b) && SameTree(a, b)
    ensures Arrange(before, a) == Arrange(before, b)
    decreases a
  {
    if a.Cons? {
      FoundNames(b, a.name);
      WithoutNames(b, a.name);
      SameNames(a.rest, Without(b, a.name));
      TakenOut(before, b, a.name);
      SameArranged(before, a.rest, Without(b, a.name));
      if a.node.Directory? {
        SameArranged(before, a.node.entries, Find(b, a.name).entries);
      }
    }
  }

  lemma {:induction false} SameAsItself(listing: Listing)
    ensures SameTree(listing, listing)
    decreases listing
  {
    if listing.Cons? {
      SameAsItself(listing.rest);
      if listing.node.Directory? {
        SameAsItself(listing.node.entries);
      }
    }
  }

  /** The directory listed with one of its entries first. */
  function Fronted(listing: Listing, name: Bytes): Listing
    requires HasName(listing, name)
  {
    Cons(name, Find(listing, name), Without(listing, name))
  }

  lemma {:induction false} FrontedIsSame(listing: Listing, name: Bytes)
    requires GoodNames(listing) && HasName(listing, name)
    ensures GoodNames(Fronted(listing, name)) && SameTree(listing, Fronted(listing, name))
  {
    FoundNames(listing, name);
    WithoutNames(listing, name);
    if listing.name == name {
      SameAsItself(listing);
    } else {
      FrontedIsSame(listing.rest, name);
      if listing.node.Directory? {
        SameAsItself(listing.node.entries);
      }
      assert GoodName(name);
    }
  }

  /** The first name stands in the listing before any entry of the second. */
  predicate Precedes(listing: Listing, first: Bytes, second: Bytes) {
    listing.Cons? && (listing.name == first || (listing.name != second && Precedes(listing.rest, first, second)))
  }

  lemma {:induction false} PrecedesOneWay(listing: Listing, m: Bytes, n: Bytes)
    requires m != n && Precedes(listing, m, n)
    ensures !Precedes(listing, n, m)
  {
    if listing.name != m {
      PrecedesOneWay(listing.rest, m, n);
    }
  }

  /** An entry is inserted before those whose names compare equal. */
  lemma {:induction false} InsertedFirst(before: (Bytes, Bytes) -> bool, name: Bytes, node: Node, listing: Listing,
                                         tied: Bytes)
    requires !before(tied, name)
    ensures Precedes(Insert(before, name, node, listing), name, tied)
  {
    if listing.Cons? && before(listing.name, name) {
      InsertedFirst(before, name, node, listing.rest, tied);
    }
  }

  /** Listing either of two tied entries first gives two orders. */
  lemma {:induction false} TwoOrders(before: (Bytes, Bytes) -> bool, listing: Listing, m: Bytes, n: Bytes)
    requires m != n && !before(m, n) && !before(n, m) && HasName(listing, m) && HasName(listing, n)
    ensures Arrange(before, Fronted(listing, m)) != Arrange(before, Fronted(listing, n))
  {
    InsertedFirst(before, m, ArrangeNode(before, Find(listing, m)), Arrange(before, Without(listing, m)), n);
    InsertedFirst(before, n, ArrangeNode(before, Find(listing, n)), Arrange(before, Without(listing, n)), m);
    PrecedesOneWay(Arrange(before, Fronted(listing, m)), m, n);
  }

  /** Two names of one directory that compare equal: the entries come out in another order from another listing. */
  lemma {:induction false} ListedOtherwise(before: (Bytes, Bytes) -> bool, a: Listing) returns (b: Listing)
    requires GoodNames(a) && !NoTies(before, a)
    ensures GoodNames(b) && SameTree(a, b) && Arrange(before, a) != Arrange(before, b)
    decreases a
  {
    SameAsItself(a.rest);
    ArrangeNames(before, a.rest);
    if !Apart(before, a.name, Names(a.rest)) {
      var n :| n in Names(a.rest) && !before(a.name, n) && !before(n, a.name);
      HasNameIsIn(a, n);
      TwoOrders(before, a, a.name, n);
      FrontedIsSame(a, n);
      b := Fronted(a, n);
    } else if a.node.Directory? && !NoTies(before, a.node.entries) {
      var entries := ListedOtherwise(before, a.node.entries);
      b := Cons(a.name, Directory(entries), a.rest);
      FindArranged(before, a, a.name);
      FindArranged(before, b, a.name);
    } else {
      var rest := ListedOtherwise(before, a.rest);
      b := Cons(a.name, a.node, rest);
      SameNames(a.rest, rest);
      ArrangeNames(before, rest);
      WithoutInserted(before, a.name, ArrangeNode(before, a.node), Arrange(before, a.rest));
      WithoutInserted(before, a.name, ArrangeNode(before, a.node), Arrange(before, rest));
      if a.node.Directory? {
        SameAsItself(a.node.entries);
      }
    }
  }

  // ----- refusals -----

  /** A path leads out of the root when it begins with "..", as a path component, or is absolute. */
  predicate Escapes(destination: Bytes) {
    destination == [DOT, DOT] || [DOT, DOT, SLASH] <= destination || [SLASH] <= destination
  }

  /**
   * The first reason to refuse the tree, in the order of the walk. `resolve` is what a link leads to, relative to the
   * root.
   */
  function Problem(directory: Bytes, listing: Listing, allowLinks: bool,
                   resolve: Bytes -> Option<Bytes>): Option<HashError>
    decreases listing
  {
    if listing.Nil? then None
    else
      var path := Path(directory, listing.name);
      if !Short(path) then Some(TooLong)
      else
        var problem := NodeProblem(path, listing.node, allowLinks, resolve);
        if problem.Some? then problem else Problem(directory, listing.rest, allowLinks, resolve)
  }

  function NodeProblem(path: Bytes, node: Node, allowLinks: bool, resolve: Bytes -> Option<Bytes>): Option<HashError>
    decreases node
  {
    match node
    case File(digest) => if Short(digest) then None else Some(TooLong)
    case Directory(entries) => Problem(path, entries, allowLinks, resolve)
    case Link(target) =>
      if !allowLinks then Some(UnexpectedLink)
      else if resolve(path).None? then Some(DanglingLink)
      else if Escapes(resolve(path).value) then Some(EscapedLink)
      else if !Short(target) then Some(TooLong)
      else None
    case Other => Some(Unsupported)
  }

  lemma {:induction false} FieldsAppend(r: seq<Record>, s: seq<Record>)
    ensures Fields(r + s) == Fields(r) + Fields(s)
  {
    if r == [] {
      assert r + s == s;
    } else {
      assert (r + s)[1..] == r[1..] + s;
      FieldsAppend(r[1..], s);
    }
  }

  lemma OneRecord(record: Record)
    ensures Fields([record]) == RecordFields(record)
  {
  }

  lemma {:induction false} AcceptedIsShort(directory: Bytes, listing: Listing, allowLinks: bool,
                                           resolve: Bytes -> Option<Bytes>)
    ensures Problem(directory, listing, allowLinks, resolve).None? ==> AllShort(Fields(Records(directory, listing)))
    decreases listing
  {
    if listing.Cons? {
      var path := Path(directory, listing.name);
      AcceptedIsShort(directory, listing.rest, allowLinks, resolve);
      AcceptedNodeIsShort(path, listing.node, allowLinks, resolve);
      FieldsAppend(NodeRecords(path, listing.node), Records(directory, listing.rest));
    }
  }

  lemma {:induction false} AcceptedNodeIsShort(path: Bytes, node: Node, allowLinks: bool,
                                               resolve: Bytes -> Option<Bytes>)
    ensures Short(path) && NodeProblem(path, node, allowLinks, resolve).None? ==>
              AllShort(Fields(NodeRecords(path, node)))
    decreases node
  {
    if node.Directory? {
      AcceptedIsShort(path, node.entries, allowLinks, resolve);
      FieldsAppend([DirectoryAt(path)], Records(path, node.entries));
      OneRecord(DirectoryAt(path));
    } else if !node.Other? {
      OneRecord(NodeRecords(path, node)[0]);
    }
  }

  lemma {:induction false} AcceptedIsProper(directory: Bytes, listing: Listing, allowLinks: bool,
                                            resolve: Bytes -> Option<Bytes>)
    requires GoodNames(listing) && Problem(directory, listing, allowLinks, resolve).None?
    ensures Proper(listing)
    decreases listing
  {
    if listing.Cons? {
      AcceptedIsProper(directory, listing.rest, allowLinks, resolve);
      if listing.node.Directory? {
        AcceptedIsProper(Path(directory, listing.name), listing.node.entries, allowLinks, resolve);
      }
    }
  }

  lemma {:induction false} InsertGoodNames(before: (Bytes, Bytes) -> bool, name: Bytes, node: Node, listing: Listing)
    requires GoodNames(listing) && GoodName(name) && name !in Names(listing)
        && (node.Directory? ==> GoodNames(node.entries))
    ensures GoodNames(Insert(before, name, node, listing))
  {
    if listing.Cons? && before(listing.name, name) {
      InsertGoodNames(before, name, node, listing.rest);
      InsertNames(before, name, node, listing.rest);
    }
  }

  lemma {:induction false} ArrangeGoodNames(before: (Bytes, Bytes) -> bool, listing: Listing)
    requires GoodNames(listing)
    ensures GoodNames(Arrange(before, listing))
    decreases listing
  {
    if listing.Cons? {
      ArrangeGoodNames(before, listing.rest);
      ArrangeNames(before, listing.rest);
      if listing.node.Directory? {
        ArrangeGoodNames(before, listing.node.entries);
      }
      InsertGoodNames(before, listing.name, ArrangeNode(before, listing.node), Arrange(before, listing.rest));
    }
  }

  // ----- whether a tree is refused does not depend on the listing -----

  predicate Accepted(directory: Bytes, name: Bytes, node: Node, allowLinks: bool, resolve: Bytes -> Option<Bytes>) {
    Short(Path(directory, name)) && NodeProblem(Path(directory, name), node, allowLinks, resolve).None?
  }

  lemma {:induction false} InsertAccepted(before: (Bytes, Bytes) -> bool, directory: Bytes, name: Bytes, node: Node,
                                          listing: Listing, allowLinks: bool, resolve: Bytes -> Option<Bytes>)
    ensures Problem(directory, Insert(before, name, node, listing), allowLinks, resolve).None?
            <==> (Accepted(directory, name, node, allowLinks, resolve)
                  && Problem(directory, listing, allowLinks, resolve).None?)
  {
    if listing.Cons? && before(listing.name, name) {
      InsertAccepted(before, directory, name, node, listing.rest, allowLinks, resolve);
    }
  }

  lemma {:induction false} ArrangeAccepted(before: (Bytes, Bytes) -> bool, directory: Bytes, listing: Listing,
                                           allowLinks: bool, resolve: Bytes -> Option<Bytes>)
    ensures Problem(directory, Arrange(before, listing), allowLinks, resolve).None?
            <==> Problem(directory, listing, allowLinks, resolve).None?
    decreases listing
  {
    if listing.Cons? {
      ArrangeAccepted(before, directory, listing.rest, allowLinks, resolve);
      if listing.node.Directory? {
        ArrangeAccepted(before, Path(directory, listing.name), listing.node.entries, allowLinks, resolve);
      }
      InsertAccepted(before, directory, listing.name, ArrangeNode(before, listing.node),
                     Arrange(before, listing.rest), allowLinks, resolve);
    }
  }

  lemma {:induction false} EntryAccepted(directory: Bytes, listing: Listing, name: Bytes, allowLinks: bool,
                                         resolve: Bytes -> Option<Bytes>)
    requires HasName(listing, name)
    ensures Problem(directory, listing, allowLinks, resolve).None?
            <==> (Accepted(directory, name, Find(listing, name), allowLinks, resolve)
                  && Problem(directory, Without(listing, name), allowLinks, resolve).None?)
  {
    if listing.name != name {
      EntryAccepted(directory, listing.rest, name, allowLinks, resolve);
    }
  }

  lemma {:induction false} SameAccepted(directory: Bytes, a: Listing, b: Listing, allowLinks: bool,
                                        resolve: Bytes -> Option<Bytes>)
    requires SameTree(a, b)
    ensures Problem(directory, a, allowLinks, resolve).None? <==> Problem(directory, b, allowLinks, resolve).None?
    decreases a
  {
    if a.Cons? {
      EntryAccepted(directory, b, a.name, allowLinks, resolve);
      SameAccepted(directory, a.rest, Without(b, a.name), allowLinks, resolve);
      if a.node.Directory? {
        SameAccepted(Path(directory, a.name), a.node.entries, Find(b, a.name).entries, allowLinks, resolve);
      }
    }
  }

  // ----- the hash -----

  /** The bytes fed to the hash. */
  function HashInput(before: (Bytes, Bytes) -> bool, tree: Listing, allowLinks: bool,
                     resolve: Bytes -> Option<Bytes>): Result<Bytes, HashError> {
    var sorted := Arrange(before, tree);
    match Problem([], sorted, allowLinks, resolve)
    case Some(e) => Failure(e)
    case None =>
      AcceptedIsShort([], sorted, allowLinks, resolve);
      Success(Stream(Fields(Records([], sorted))))
  }

  lemma {:induction false} SameBytes(before: (Bytes, Bytes) -> bool, a: Listing, b: Listing)
    requires Proper(Arrange(before, a)) && Proper(Arrange(before, b))
    requires AllShort(Fields(Records([], Arrange(before, a)))) && AllShort(Fields(Records([], Arrange(before, b))))
    requires Stream(Fields(Records([], Arrange(before, a)))) == Stream(Fields(Records([], Arrange(before, b))))
    ensures Arrange(before, a) == Arrange(before, b)
  {
    var r, s := Records([], Arrange(before, a)), Records([], Arrange(before, b));
    StreamDecodes(Fields(r), Fields(s));
    FieldsDecode(r, s);
    assert r + [] == s + [];
    RecordsDecode([], Arrange(before, a), Arrange(before, b), [], []);
  }

  /** What is fed to the hash is fed for a sorted tree of different names. */
  lemma {:induction false} FedIsProper(before: (Bytes, Bytes) -> bool, tree: Listing, allowLinks: bool,
                                       resolve: Bytes -> Option<Bytes>)
    requires GoodNames(tree) && HashInput(before, tree, allowLinks, resolve).Success?
    ensures Proper(Arrange(before, tree)) && AllShort(Fields(Records([], Arrange(before, tree))))
  {
    AcceptedIsShort([], Arrange(before, tree), allowLinks, resolve);
    ArrangeGoodNames(before, tree);
    AcceptedIsProper([], Arrange(before, tree), allowLinks, resolve);
  }

  /**
   * Two trees are fed to the hash as the same bytes only if they are the same tree, with the same paths, kinds,
   * link texts and file digests; and, when no directory holds two names that compare equal, whenever they are.
   */
  lemma {:induction false} HashIdentifiesTree(before: (Bytes, Bytes) -> bool, a: Listing, b: Listing, allowLinks: bool,
                                              resolveA: Bytes -> Option<Bytes>, resolveB: Bytes -> Option<Bytes>)
    requires StrictWeakOrder(before) && GoodNames(a) && GoodNames(b)
    requires HashInput(before, a, allowLinks, resolveA).Success? && HashInput(before, b, allowLinks, resolveB).Success?
    ensures HashInput(before, a, allowLinks, resolveA) == HashInput(before, b, allowLinks, resolveB) ==> SameTree(a, b)
    ensures NoTies(before, a) && SameTree(a, b) ==>
              HashInput(before, a, allowLinks, resolveA) == HashInput(before, b, allowLinks, resolveB)
  {
    FedIsProper(before, a, allowLinks, resolveA);
    FedIsProper(before, b, allowLinks, resolveB);
    if HashInput(before, a, allowLinks, resolveA) == HashInput(before, b, allowLinks, resolveB) {
      SameBytes(before, a, b);
      ArrangedAlike(before, a, b);
    }
    if NoTies(before, a) && SameTree(a, b) {
      SameArranged(before, a, b);
    }
  }

  /** Every listing of a tree is refused, or none is. */
  lemma {:induction false} RefusedInEveryOrder(before: (Bytes, Bytes) -> bool, a: Listing, b: Listing, allowLinks: bool,
                                               resolve: Bytes -> Option<Bytes>)
    requires SameTree(a, b)
    ensures HashInput(before, a, allowLinks, resolve).Success? <==> HashInput(before, b, allowLinks, resolve).Success?
  {
    ArrangeAccepted(before, [], a, allowLinks, resolve);
    ArrangeAccepted(before, [], b, allowLinks, resolve);
    SameAccepted([], a, b, allowLinks, resolve);
  }

  /** A tree with two names that compare equal is hashed differently from some other listing of the same tree. */
  lemma TieChangesHash(before: (Bytes, Bytes) -> bool, a: Listing, allowLinks: bool,
                       resolve: Bytes -> Option<Bytes>) returns (b: Listing)
    requires GoodNames(a) && HashInput(before, a, allowLinks, resolve).Success? && !NoTies(before, a)
    ensures GoodNames(b) && SameTree(a, b) && HashInput(before, b, allowLinks, resolve).Success?
    ensures HashInput(before, a, allowLinks, resolve) != HashInput(before, b, allowLinks, resolve)
  {
    b := ListedOtherwise(before, a);
    RefusedInEveryOrder(before, a, b, allowLinks, resolve);
    FedIsProper(before, a, allowLinks, resolve);
    FedIsProper(before, b, allowLinks, resolve);
    if HashInput(before, a, allowLinks, resolve) == HashInput(before, b, allowLinks, resolve) {
      SameBytes(before, a, b);
    }
  }

  /** The hash of a tree is the same from every listing exactly when no directory of it has names that compare equal. */
  lemma {:induction false} ListingOrderIrrelevantIff(before: (Bytes, Bytes) -> bool, a: Listing, allowLinks: bool,
                                                     resolve: Bytes -> Option<Bytes>)
    requires StrictWeakOrder(before) && GoodNames(a) && HashInput(before, a, allowLinks, resolve).Success?
    ensures NoTies(before, a)
            <==> forall b :: GoodNames(b) && SameTree(a, b) ==>
                   HashInput(before, b, allowLinks, resolve) == HashInput(before, a, allowLinks, resolve)
  {
    if NoTies(before, a) {
      forall b | GoodNames(b) && SameTree(a, b)
        ensures HashInput(before, b, allowLinks, resolve) == HashInput(before, a, allowLinks, resolve)
      {
        RefusedInEveryOrder(before, a, b, allowLinks, resolve);
        HashIdentifiesTree(before, a, b, allowLinks, resolve, resolve);
      }
    } else {
      var b := TieChangesHash(before, a, allowLinks, resolve);
    }
  }

  lemma ArrangeOne(before: (Bytes, Bytes) -> bool, name: Bytes)
    ensures Arrange(before, Cons(name, File([]), Nil)) == Cons(name, File([]), Nil)
  {
    assert Arrange(before, Nil) == Nil;
  }

  lemma OneFile(name: Bytes, resolve: Bytes -> Option<Bytes>)
    requires Short(name)
    ensures Problem([], Cons(name, File([]), Nil), false, resolve).None?
  {
    assert Path([], name) == name;
    assert NodeProblem(name, File([]), false, resolve).None?;
    assert Problem([], Nil, false, resolve).None?;
  }

  /** Two names that compare equal are hashed in the order in which the directory lists them. */
  lemma EqualNamesKeepListingOrder(before: (Bytes, Bytes) -> bool, m: Bytes, n: Bytes, resolve: Bytes -> Option<Bytes>)
    requires GoodName(m) && GoodName(n) && Short(m) && Short(n) && m != n && !before(m, n) && !before(n, m)
    ensures var a, b := Cons(m, File([]), Cons(n, File([]), Nil)), Cons(n, File([]), Cons(m, File([]), Nil));
            && SameTree(a, b) && HashInput(before, a, false, resolve).Success?
                 && HashInput(before, b, false, resolve).Success?
            && HashInput(before, a, false, resolve) != HashInput(before, b, false, resolve)
  {
    var a, b := Cons(m, File([]), Cons(n, File([]), Nil)), Cons(n, File([]), Cons(m, File([]), Nil));
    ArrangeOne(before, m);
    ArrangeOne(before, n);
    assert Arrange(before, a) == a && Arrange(before, b) == b;
    assert Path([], m) == m && Path([], n) == n;
    OneFile(m, resolve);
    OneFile(n, resolve);
    AcceptedIsShort([], a, false, resolve);
    AcceptedIsShort([], b, false, resolve);
    if HashInput(before, a, false, resolve) == HashInput(before, b, false, resolve) {
      SameBytes(before, a, b);
    }
  }

  // ----- hashing as it is done -----

  /** A running hash, by the bytes it has been fed. */
  class Hash {
    var fed: Bytes

    constructor ()
      ensures fed == []
    {
      fed := [];
    }

    method Update(bytes: Bytes)
      modifies this
      ensures fed == old(fed) + bytes
    {
      fed := fed + bytes;
    }
  }

  method Field(hash: Hash, value: Bytes) returns (ok: bool)
    modifies hash
    ensures ok == Short(value)
    ensures ok ==> hash.fed == old(hash.fed) + Framed(value)
  {
    ok := |value| < LENGTHS;
    if ok {
      hash.Update(LengthBytes(|value|));
      hash.Update(value);
    }
  }

  lemma {:induction false} StreamAppend(a: seq<Bytes>, b: seq<Bytes>)
    requires AllShort(a) && AllShort(b)
    ensures Stream(a + b) == Stream(a) + Stream(b)
  {
    if a == [] {
      assert a + b == b;
    } else {
      assert (a + b)[1..] == a[1..] + b;
      StreamAppend(a[1..], b);
    }
  }

  /** What a walk over sorted entries does to the hash. */
  twostate predicate Walked(hash: Hash, records: seq<Record>)
    reads hash
  {
    AllShort(Fields(records)) && hash.fed == old(hash.fed) + Stream(Fields(records))
  }

  lemma {:induction false} WalkOn(fed: Bytes, r: seq<Record>, s: seq<Record>)
    requires AllShort(Fields(r)) && AllShort(Fields(s))
    ensures AllShort(Fields(r + s)) && fed + Stream(Fields(r)) + Stream(Fields(s)) == fed + Stream(Fields(r + s))
  {
    FieldsAppend(r, s);
    StreamAppend(Fields(r), Fields(s));
    Regroup(fed, Stream(Fields(r)), Stream(Fields(s)));
  }

  lemma TwoFields(fed: Bytes, a: Bytes, b: Bytes)
    requires AllShort([a, b])
    ensures fed + Framed(a) + Framed(b) == fed + Stream([a, b])
  {
    assert [a, b][1..] == [b] && [b][1..] == [];
    assert Stream([b]) == Framed(b) + Stream([]) == Framed(b);
    Regroup(fed, Framed(a), Framed(b));
  }

  lemma ThreeFields(fed: Bytes, a: Bytes, b: Bytes, c: Bytes)
    requires AllShort([a, b, c])
    ensures fed + Framed(a) + Framed(b) + Framed(c) == fed + Stream([a, b, c])
  {
    assert [a, b, c][1..] == [b, c];
    assert forall f :: f in [b, c] ==> f in [a, b, c];
    TwoFields(fed + Framed(a), b, c);
    Regroup(fed, Framed(a), Stream([b, c]));
  }

  method Walk(hash: Hash, directory: Bytes, entries: Listing, allowLinks: bool, resolve: Bytes -> Option<Bytes>)
    returns (problem: Option<HashError>)
    modifies hash
    ensures problem == Problem(directory, entries, allowLinks, resolve)
    ensures problem.None? ==> Walked(hash, Records(directory, entries))
    decreases entries
  {
    if entries.Nil? {
      return None;
    }
    var path := Path(directory, entries.name);
    problem := WalkEntry(hash, path, entries.node, allowLinks, resolve);
    if problem.None? {
      ghost var fed := old(hash.fed);
      problem := Walk(hash, directory, entries.rest, allowLinks, resolve);
      if problem.None? {
        WalkOn(fed, NodeRecords(path, entries.node), Records(directory, entries.rest));
      }
    }
  }

  /** The path, the kind, and what identifies the contents. */
  method WalkEntry(hash: Hash, path: Bytes, node: Node, allowLinks: bool, resolve: Bytes -> Option<Bytes>)
    returns (problem: Option<HashError>)
    modifies hash
    ensures problem == if Short(path) then NodeProblem(path, node, allowLinks, resolve) else Some(TooLong)
    ensures problem.None? ==> Walked(hash, NodeRecords(path, node))
    decreases node
  {
    var ok := Field(hash, path);
    if !ok {
      return Some(TooLong);
    }
    match node {
      case Link(target) =>
        if !allowLinks {
          return Some(UnexpectedLink);
        }
        var destination := resolve(path);
        if destination.None? {
          return Some(DanglingLink);
        }
        if Escapes(destination.value) {
          return Some(EscapedLink);
        }
        var kind := Field(hash, LINK);
        ok := Field(hash, target);
        if !ok {
          return Some(TooLong);
        }
        OneRecord(LinkAt(path, target));
        ThreeFields(old(hash.fed), path, LINK, target);
      case Directory(entries) =>
        var kind := Field(hash, DIRECTORY);
        OneRecord(DirectoryAt(path));
        TwoFields(old(hash.fed), path, DIRECTORY);
        ghost var fed := old(hash.fed);
        problem := Walk(hash, path, entries, allowLinks, resolve);
        if problem.None? {
          WalkOn(fed, [DirectoryAt(path)], Records(path, entries));
        }
        return;
      case File(digest) =>
        var kind := Field(hash, FILE);
        ok := Field(hash, digest);
        if !ok {
          return Some(TooLong);
        }
        OneRecord(FileAt(path, digest));
        ThreeFields(old(hash.fed), path, FILE, digest);
      case Other =>
        return Some(Unsupported);
    }
    return None;
  }

  /**
   * Each directory is sorted, then walked; the sorted tree is the same whether that is done level by level or at once.
   */
  method HashTree(before: (Bytes, Bytes) -> bool, tree: Listing, allowLinks: bool, resolve: Bytes -> Option<Bytes>)
    returns (result: Result<Bytes, HashError>)
    ensures result == HashInput(before, tree, allowLinks, resolve)
  {
    var hash := new Hash();
    var sorted := Arrange(before, tree);
    var problem := Walk(hash, [], sorted, allowLinks, resolve);
    if problem.Some? {
      return Failure(problem.value);
    }
    AcceptedIsShort([], sorted, allowLinks, resolve);
    ghost var input := Stream(Fields(Records([], sorted)));
    assert [] + input == input;
    return Success(hash.fed);
  }
}
