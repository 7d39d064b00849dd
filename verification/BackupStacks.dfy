/**
 The backups table (components.js): backups of one database or server are folded into one stack. The
 list is sorted newest first, grouped by stack key, and laid out as rows, the first row of every stack
 carrying the whole stack.
 */
module BackupStacks {
  import opened Basics

  /** Missing ids and names are "", which the source's `||` skips the same way; `createdAt` is the time's place in the order of times. */
  datatype Backup = Backup(id: nat, isDatabase: bool, databaseId: string, databaseName: string, serverId: string,
                           createdAt: int)

  datatype Row = Row(b: Backup, k: string, older: bool, list: Option<seq<Backup>>)

  function StackKey(b: Backup): string {
    if b.isDatabase then "db:" + Or(b.databaseId, Or(b.databaseName, "?")) else "srv:" + Or(b.serverId, "?")
  }

  /** What a stack is about. */
  function Subject(b: Backup): string {
    if b.isDatabase then Or(b.databaseId, Or(b.databaseName, "?")) else Or(b.serverId, "?")
  }

  /** Two backups share a stack exactly when they are of one kind and about the same thing. */
  lemma SameStack(a: Backup, b: Backup)
    ensures StackKey(a) == StackKey(b) <==> a.isDatabase == b.isDatabase && Subject(a) == Subject(b)
  {
    assert "db:"[0] == 'd' && "srv:"[0] == 's';
    assert StackKey(a)[0] == if a.isDatabase then 'd' else 's';
    assert StackKey(b)[0] == if b.isDatabase then 'd' else 's';
    assert StackKey(a)[if a.isDatabase then 3 else 4..] == Subject(a);
    assert StackKey(b)[if b.isDatabase then 3 else 4..] == Subject(b);
  }

  /**
   Backups of databases are told apart by the database's id, those without one by its name; backups of servers
   by the server's id. Those that name nothing share one stack, and the two kinds never do.
   */
  lemma StackTold(a: Backup, b: Backup)
    ensures a.isDatabase != b.isDatabase ==> StackKey(a) != StackKey(b)
    ensures a.isDatabase && b.isDatabase && a.databaseId != "" && b.databaseId != "" ==>
              (StackKey(a) == StackKey(b) <==> a.databaseId == b.databaseId)
    ensures a.isDatabase && b.isDatabase && a.databaseId == "" && b.databaseId == "" && a.databaseName != "" && b.databaseName != "" ==>
              (StackKey(a) == StackKey(b) <==> a.databaseName == b.databaseName)
    ensures !a.isDatabase && !b.isDatabase && a.serverId != "" && b.serverId != "" ==>
              (StackKey(a) == StackKey(b) <==> a.serverId == b.serverId)
    ensures a.isDatabase && b.isDatabase && a.databaseId == "" == a.databaseName && b.databaseId == "" == b.databaseName ==>
              StackKey(a) == StackKey(b) == "db:?"
    ensures !a.isDatabase && !b.isDatabase && a.serverId == "" == b.serverId ==> StackKey(a) == StackKey(b) == "srv:?"
  {
    SameStack(a, b);
  }

  // ---------------------------------------------------------------- newest first

  ghost predicate NewestFirst(s: seq<Backup>) {
    forall i, j | 0 <= i < j < |s| :: s[i].createdAt >= s[j].createdAt
  }

  function Insert(b: Backup, s: seq<Backup>): (r: seq<Backup>)
    ensures multiset(r) == multiset{b} + multiset(s)
  {
    if s == [] || s[0].createdAt <= b.createdAt then [b] + s
    else
      assert s == [s[0]] + s[1..];
      [s[0]] + Insert(b, s[1..])
  }

  lemma {:induction false} InsertInOrder(b: Backup, s: seq<Backup>)
    requires NewestFirst(s)
    ensures NewestFirst(Insert(b, s))
  {
    if s != [] && s[0].createdAt > b.createdAt {
      InsertInOrder(b, s[1..]);
      var rest := Insert(b, s[1..]);
      forall j | 0 <= j < |rest| ensures s[0].createdAt >= rest[j].createdAt {
        assert rest[j] in multiset(rest);
      }
    }
  }

  /** The library's stable sort by descending time. */
  function Sorted(items: seq<Backup>): (r: seq<Backup>)
    ensures multiset(r) == multiset(items)
  {
    if items == [] then [] else
      assert items == [items[0]] + items[1..];
      Insert(items[0], Sorted(items[1..]))
  }

  lemma {:induction false} SortedNewestFirst(items: seq<Backup>)
    ensures NewestFirst(Sorted(items))
  {
    if items != [] {
      SortedNewestFirst(items[1..]);
      InsertInOrder(items[0], Sorted(items[1..]));
    }
  }

  function At(s: seq<Backup>, time: int): seq<Backup> {
    if s == [] then [] else
      var rest := At(s[1..], time);
      if s[0].createdAt == time then [s[0]] + rest else rest
  }

  lemma {:induction false} InsertIsStable(b: Backup, s: seq<Backup>, time: int)
    requires NewestFirst(s)
    ensures At(Insert(b, s), time) == (if b.createdAt == time then [b] else []) + At(s, time)
  {
    if s == [] || s[0].createdAt <= b.createdAt {
      AtCons(b, s, time);
    } else {
      var rest := s[1..];
      assert NewestFirst(rest) && s == [s[0]] + rest && Insert(b, s) == [s[0]] + Insert(b, rest);
      hide At, Insert, NewestFirst;
      InsertIsStable(b, rest, time);
      AtCons(s[0], rest, time);
      AtCons(s[0], Insert(b, rest), time);
    }
  }

  lemma AtCons(b: Backup, s: seq<Backup>, time: int)
    ensures At([b] + s, time) == (if b.createdAt == time then [b] else []) + At(s, time)
  {
    assert ([b] + s)[1..] == s;
  }

  /** Backups of the same time keep their order. */
  lemma {:induction false} SortIsStable(items: seq<Backup>, time: int)
    ensures At(Sorted(items), time) == At(items, time)
  {
    if items != [] {
      SortIsStable(items[1..], time);
      SortedNewestFirst(items[1..]);
      InsertIsStable(items[0], Sorted(items[1..]), time);
    }
  }

  // ---------------------------------------------------------------- stacks

  function Stack(s: seq<Backup>, k: string): seq<Backup> {
    if s == [] then [] else
      var rest := Stack(s[1..], k);
      if StackKey(s[0]) == k then [s[0]] + rest else rest
  }

  function Others(s: seq<Backup>, k: string): (r: seq<Backup>)
    ensures |r| <= |s| && (s != [] && StackKey(s[0]) == k ==> |r| < |s|)
  {
    if s == [] then [] else
      var rest := Others(s[1..], k);
      if StackKey(s[0]) == k then rest else [s[0]] + rest
  }

  lemma {:induction false} InStack(s: seq<Backup>, k: string)
    ensures forall b :: b in Stack(s, k) <==> b in s && StackKey(b) == k
    ensures forall b :: b in Others(s, k) <==> b in s && StackKey(b) != k
  {
    hide StackKey;
    if s != [] {
      InStack(s[1..], k);
      assert s == [s[0]] + s[1..];
    }
  }

  function Block(k: string, list: seq<Backup>): (r: seq<Row>)
    ensures |r| == |list|
    ensures forall j | 0 <= j < |r| :: r[j] == Row(list[j], k, j > 0, if j == 0 then Some(list) else None)
  {
    seq(|list|, j requires 0 <= j < |list| => Row(list[j], k, j > 0, if j == 0 then Some(list) else None))
  }

  /** Rows one stack at a time: the stack of the first backup, then the rows of all the others. */
  function Rows(s: seq<Backup>): seq<Row>
    decreases |s|
  {
    if s == [] then [] else
      var k := StackKey(s[0]);
      Block(k, Stack(s, k)) + Rows(Others(s, k))
  }

  function Table(items: seq<Backup>): seq<Row> {
    Rows(Sorted(items))
  }

  // ---------------------------------------------------------------- the grouping loops

  /** The keys in order of first use, as the source's Map iterates them. */
  function Keys(s: seq<Backup>): seq<string>
    decreases |s|
  {
    if s == [] then [] else
      var k := StackKey(s[0]);
      [k] + Keys(Others(s, k))
  }

  lemma {:induction false} InKeys(s: seq<Backup>)
    ensures forall k :: k in Keys(s) <==> exists b :: b in s && StackKey(b) == k
    decreases |s|
  {
    if s != [] {
      hide StackKey, Others;
      var k := StackKey(s[0]);
      InStack(s, k);
      InKeys(Others(s, k));
      forall j ensures j in Keys(s) <==> exists b :: b in s && StackKey(b) == j {
        if j == k {
          assert s[0] in s;
        } else if j in Keys(s) {
          assert j in Keys(Others(s, k));
        }
      }
    }
  }

  lemma {:induction false} StackSnoc(s: seq<Backup>, b: Backup, k: string)
    ensures Stack(s + [b], k) == Stack(s, k) + if StackKey(b) == k then [b] else []
  {
    hide StackKey;
    if s == [] {
      assert [] + [b] == [b];
    } else {
      assert (s + [b])[1..] == s[1..] + [b] && (s + [b])[0] == s[0];
      StackSnoc(s[1..], b, k);
    }
  }

  lemma {:induction false} OthersSnoc(s: seq<Backup>, b: Backup, k: string)
    ensures Others(s + [b], k) == Others(s, k) + if StackKey(b) == k then [] else [b]
  {
    hide StackKey;
    if s == [] {
      assert [] + [b] == [b];
    } else {
      assert (s + [b])[1..] == s[1..] + [b] && (s + [b])[0] == s[0];
      OthersSnoc(s[1..], b, k);
    }
  }

  lemma FirstKey(s: seq<Backup>)
    requires s != []
    ensures Keys(s) == [StackKey(s[0])] + Keys(Others(s, StackKey(s[0])))
  {
    hide StackKey, Others;
  }

  /** The key of `b` is new unless it is already among the keys `ks`. */
  function AddKey(ks: seq<string>, b: Backup): seq<string> {
    if StackKey(b) in ks then ks else ks + [StackKey(b)]
  }

  lemma {:induction false} KeysSnoc(s: seq<Backup>, b: Backup)
    ensures Keys(s + [b]) == AddKey(Keys(s), b)
    decreases |s|
  {
    hide StackKey, Others, Stack;
    if s == [] {
      assert [] + [b] == [b];
      FirstKey([b]);
      NoOthers(b);
    } else {
      hide Keys;
      var k := StackKey(s[0]);
      var others := Others(s, k);
      OthersSnoc(s, b, k);
      FirstKey(s);
      FirstKey(s + [b]);
      assert (s + [b])[0] == s[0];
      if StackKey(b) == k {
        assert others + [] == others;
      } else {
        KeysSnoc(others, b);
        AddKeyAfter(k, Keys(others), b);
      }
    }
  }

  lemma AddKeyAfter(k: string, ks: seq<string>, b: Backup)
    requires StackKey(b) != k
    ensures AddKey([k] + ks, b) == [k] + AddKey(ks, b)
  {
    hide StackKey;
    assert [k] + ks + [StackKey(b)] == [k] + (ks + [StackKey(b)]);
  }

  lemma NoOthers(b: Backup)
    ensures Others([b], StackKey(b)) == []
  {
  }

  /** The blocks of the given keys, all of them stacks of `s`. */
  function Blocks(s: seq<Backup>, ks: seq<string>): seq<Row> {
    if ks == [] then [] else Block(ks[0], Stack(s, ks[0])) + Blocks(s, ks[1..])
  }

  lemma {:induction false} StackOfOthers(s: seq<Backup>, k: string, other: string)
    requires k != other
    ensures Stack(Others(s, other), k) == Stack(s, k)
  {
    hide StackKey;
    if s != [] {
      StackOfOthers(s[1..], k, other);
    }
  }

  lemma {:induction false} BlocksOfOthers(s: seq<Backup>, other: string, ks: seq<string>)
    requires other !in ks
    ensures Blocks(Others(s, other), ks) == Blocks(s, ks)
  {
    hide StackKey;
    if ks != [] {
      StackOfOthers(s, ks[0], other);
      BlocksOfOthers(s, other, ks[1..]);
    }
  }

  lemma {:induction false} BlocksAreRows(s: seq<Backup>)
    ensures Blocks(s, Keys(s)) == Rows(s)
    decreases |s|
  {
    if s != [] {
      hide StackKey, Stack, Others, Block;
      var k := StackKey(s[0]);
      var others := Others(s, k);
      BlocksAreRows(others);
      InStack(s, k);
      InKeys(others);
      BlocksOfOthers(s, k, Keys(others));
      assert Keys(s)[1..] == Keys(others);
    }
  }

  method GroupByStack(newest: seq<Backup>) returns (keys: seq<string>, groups: map<string, seq<Backup>>)
    ensures keys == Keys(newest)
    ensures forall k | k in keys :: k in groups && groups[k] == Stack(newest, k)
  {
    hide StackKey, Stack, Others, Keys;
    keys, groups := [], map[];
    NothingGrouped();
    assert newest[..0] == [];
    for i := 0 to |newest|
      invariant keys == Keys(newest[..i])
      invariant forall k :: k in groups <==> k in keys
      invariant forall k | k in groups :: groups[k] == Stack(newest[..i], k)
    {
      var b := newest[i];
      var k := StackKey(b);
      assert newest[..i + 1] == newest[..i] + [b];
      KeysSnoc(newest[..i], b);
      StacksGrow(newest[..i], b);
      if k !in groups {
        groups := groups[k := []];
        keys := keys + [k];
      }
      groups := groups[k := groups[k] + [b]];
    }
    assert newest[..|newest|] == newest;
  }

  /** Sorts, groups by key, then lays the groups out. */
  method BackupRows(items: seq<Backup>) returns (rows: seq<Row>)
    ensures rows == Table(items)
  {
    hide StackKey, Stack, Others, Keys, Rows, Sorted;
    var newest := Sorted(items);
    var keys, groups := GroupByStack(newest);
    BlocksAreRows(newest);
    rows := [];
    assert keys[0..] == keys && [] + Blocks(newest, keys) == Blocks(newest, keys);
    for i := 0 to |keys|
      invariant rows + Blocks(newest, keys[i..]) == Rows(newest)
    {
      var k := keys[i];
      var list := groups[k];
      ghost var before := rows;
      for j := 0 to |list|
        invariant rows == before + Block(k, list)[..j]
      {
        rows := rows + [Row(list[j], k, j > 0, if j == 0 then Some(list) else None)];
      }
      assert keys[i..] != [] && keys[i..][1..] == keys[i + 1..];
      assert before + (Block(k, list) + Blocks(newest, keys[i + 1..])) == rows + Blocks(newest, keys[i + 1..]);
    }
  }

  lemma NothingGrouped()
    ensures Keys([]) == []
  {
  }

  lemma StacksGrow(s: seq<Backup>, b: Backup)
    ensures forall k :: Stack(s + [b], k) == Stack(s, k) + if StackKey(b) == k then [b] else []
    ensures StackKey(b) !in Keys(s) ==> Stack(s, StackKey(b)) == []
  {
    hide StackKey, Keys, Stack;
    forall k ensures Stack(s + [b], k) == Stack(s, k) + if StackKey(b) == k then [b] else [] {
      StackSnoc(s, b, k);
    }
    var stack := Stack(s, StackKey(b));
    InStack(s, StackKey(b));
    InKeys(s);
    if stack != [] {
      assert stack[0] in stack;
    }
  }

  // ---------------------------------------------------------------- what the table shows

  function Shown(rows: seq<Row>): (r: seq<Backup>)
    ensures |r| == |rows| && forall i | 0 <= i < |r| :: r[i] == rows[i].b
  {
    seq(|rows|, i requires 0 <= i < |rows| => rows[i].b)
  }

  lemma {:induction false} SplitKeeps(s: seq<Backup>, k: string)
    ensures multiset(Stack(s, k)) + multiset(Others(s, k)) == multiset(s)
  {
    hide StackKey;
    if s != [] {
      SplitKeeps(s[1..], k);
      assert s == [s[0]] + s[1..];
    }
  }

  lemma ShownConcat(a: seq<Row>, b: seq<Row>)
    ensures Shown(a + b) == Shown(a) + Shown(b)
  {
  }

  lemma ShownBlock(k: string, list: seq<Backup>)
    ensures Shown(Block(k, list)) == list
  {
  }

  lemma {:induction false} RowsKeep(s: seq<Backup>)
    ensures multiset(Shown(Rows(s))) == multiset(s)
    decreases |s|
  {
    hide StackKey, Stack, Block, Shown;
    if s != [] {
      var k := StackKey(s[0]);
      var list, others := Stack(s, k), Others(s, k);
      RowsKeep(others);
      SplitKeeps(s, k);
      ShownConcat(Block(k, list), Rows(others));
      ShownBlock(k, list);
    }
  }

  /** Every backup is on exactly one row, however often it is listed. */
  lemma TableKeepsAll(items: seq<Backup>)
    ensures multiset(Shown(Table(items))) == multiset(items)
  {
    RowsKeep(Sorted(items));
  }

  lemma NewestOnTop(b: Backup, s: seq<Backup>)
    requires NewestFirst(s) && forall x | x in s :: b.createdAt >= x.createdAt
    ensures NewestFirst([b] + s)
  {
  }

  lemma {:induction false} StackNewestFirst(s: seq<Backup>, k: string)
    requires NewestFirst(s)
    ensures NewestFirst(Stack(s, k)) && NewestFirst(Others(s, k))
  {
    hide StackKey;
    if s != [] {
      var rest := s[1..];
      assert NewestFirst(rest) && forall x | x in rest :: s[0].createdAt >= x.createdAt;
      hide NewestFirst;
      StackNewestFirst(rest, k);
      InStack(rest, k);
      if StackKey(s[0]) == k {
        NewestOnTop(s[0], Stack(rest, k));
      } else {
        NewestOnTop(s[0], Others(rest, k));
      }
    }
  }

  /** Every row stands under its own stack's key, and the rows of a key are not interrupted. */
  ghost predicate Contiguous(rows: seq<Row>) {
    && (forall i | 0 <= i < |rows| :: rows[i].k == StackKey(rows[i].b))
    && (forall i, j, m | 0 <= i < j < m < |rows| && rows[i].k == rows[m].k :: rows[j].k == rows[i].k)
  }

  /** Exactly the first row of a stack is not "older". */
  ghost predicate FirstIsHead(rows: seq<Row>) {
    forall i | 0 <= i < |rows| :: rows[i].older <==> exists h :: 0 <= h < i && rows[h].k == rows[i].k
  }

  /** The rows that are not "older", and they alone, carry a list: the whole stack. */
  ghost predicate HeadHasStack(rows: seq<Row>, s: seq<Backup>) {
    forall r | r in rows :: r.list == if r.older then None else Some(Stack(s, r.k))
  }

  /** Newest first inside a stack, and the stacks by their newest backup. */
  ghost predicate InTimeOrder(rows: seq<Row>) {
    forall i, j | 0 <= i < j < |rows| && (rows[i].k == rows[j].k || (!rows[i].older && !rows[j].older)) ::
      rows[i].b.createdAt >= rows[j].b.createdAt
  }

  lemma RowsComeFrom(s: seq<Backup>)
    ensures forall r | r in Rows(s) :: r.b in s
  {
    hide StackKey;
    RowsKeep(s);
    forall r | r in Rows(s) ensures r.b in s {
      var i :| 0 <= i < |Rows(s)| && Rows(s)[i] == r;
      assert Shown(Rows(s))[i] in multiset(Shown(Rows(s)));
    }
  }

  lemma ContiguousOn(k: string, list: seq<Backup>, rest: seq<Row>)
    requires Contiguous(rest) && (forall r | r in rest :: r.k != k) && (forall b | b in list :: StackKey(b) == k)
    ensures Contiguous(Block(k, list) + rest)
  {
    hide StackKey, Block;
    var rows := Block(k, list) + rest;
    assert forall i | 0 <= i < |list| :: rows[i].k == k && rows[i].b == list[i] && list[i] in list;
    assert forall i | |list| <= i < |rows| :: rows[i] == rest[i - |list|] && rest[i - |list|] in rest;
  }

  lemma {:induction false} RowsContiguous(s: seq<Backup>)
    ensures Contiguous(Rows(s))
    decreases |s|
  {
    if s != [] {
      hide StackKey, Stack, Others, Block;
      var k := StackKey(s[0]);
      var list, others := Stack(s, k), Others(s, k);
      RowsContiguous(others);
      RowsComeFrom(others);
      InStack(s, k);
      ContiguousOn(k, list, Rows(others));
    }
  }

  lemma OlderOn(k: string, list: seq<Backup>, rest: seq<Row>)
    requires FirstIsHead(rest) && forall r | r in rest :: r.k != k
    ensures FirstIsHead(Block(k, list) + rest)
  {
    var rows := Block(k, list) + rest;
    forall i | 0 <= i < |rows| ensures rows[i].older <==> exists h :: 0 <= h < i && rows[h].k == rows[i].k {
      if i < |list| {
        assert i > 0 ==> rows[0].k == rows[i].k;
      } else {
        assert rows[i] == rest[i - |list|] && rows[i] in rest;
        assert forall h | |list| <= h < i :: rows[h] == rest[h - |list|];
        if rows[i].older {
          var h :| 0 <= h < i - |list| && rest[h].k == rows[i].k;
          assert rows[h + |list|].k == rows[i].k;
        }
      }
    }
  }

  lemma {:induction false} RowsHeaded(s: seq<Backup>)
    ensures FirstIsHead(Rows(s)) && HeadHasStack(Rows(s), s)
    decreases |s|
  {
    if s != [] {
      hide StackKey, FirstIsHead, Stack, Others;
      var k := StackKey(s[0]);
      var list, others := Stack(s, k), Others(s, k);
      var block, rest := Block(k, list), Rows(others);
      RowsHeaded(others);
      RowsUnder(s);
      OlderOn(k, list, rest);
      forall r | r in rest ensures r.list == if r.older then None else Some(Stack(s, r.k)) {
        StackOfOthers(s, r.k, k);
      }
    }
  }

  /** After the first stack none of its rows comes again. */
  lemma RowsUnder(s: seq<Backup>)
    requires s != []
    ensures forall r | r in Rows(Others(s, StackKey(s[0]))) :: r.k != StackKey(s[0])
  {
    hide StackKey, Rows;
    var others := Others(s, StackKey(s[0]));
    RowsContiguous(others);
    RowsComeFrom(others);
    InStack(s, StackKey(s[0]));
  }

  lemma TimeOrderOn(k: string, list: seq<Backup>, rest: seq<Row>)
    requires NewestFirst(list) && InTimeOrder(rest) && forall r | r in rest :: r.k != k
    requires list != [] && forall r | r in rest :: list[0].createdAt >= r.b.createdAt
    ensures InTimeOrder(Block(k, list) + rest)
  {
    var rows := Block(k, list) + rest;
    forall i, j | 0 <= i < j < |rows| && (rows[i].k == rows[j].k || (!rows[i].older && !rows[j].older))
      ensures rows[i].b.createdAt >= rows[j].b.createdAt
    {
      if i >= |list| {
        assert rows[i] == rest[i - |list|] && rows[j] == rest[j - |list|];
      } else if j < |list| {
        assert rows[i].b == list[i] && rows[j].b == list[j];
      } else {
        assert rows[j] == rest[j - |list|] && rest[j - |list|] in rest && i == 0;
      }
    }
  }

  lemma {:induction false} RowsInTimeOrder(s: seq<Backup>)
    requires NewestFirst(s)
    ensures InTimeOrder(Rows(s))
    decreases |s|
  {
    if s != [] {
      hide StackKey, InTimeOrder, Others, Block;
      var k := StackKey(s[0]);
      var list, others := Stack(s, k), Others(s, k);
      StackNewestFirst(s, k);
      RowsInTimeOrder(others);
      RowsUnder(s);
      RowsComeFrom(others);
      InStack(s, k);
      assert list[0] == s[0] && forall b | b in s :: s[0].createdAt >= b.createdAt;
      TimeOrderOn(k, list, Rows(others));
    }
  }

  /** The laws together, for any list of backups. */
  lemma TableLaws(items: seq<Backup>)
    ensures Contiguous(Table(items)) && InTimeOrder(Table(items))
    ensures FirstIsHead(Table(items)) && HeadHasStack(Table(items), Sorted(items))
  {
    hide Rows, Sorted, Contiguous, FirstIsHead, HeadHasStack, InTimeOrder, NewestFirst;
    SortedNewestFirst(items);
    RowsContiguous(Sorted(items));
    RowsHeaded(Sorted(items));
    RowsInTimeOrder(Sorted(items));
  }

  lemma {:induction false} StackOfList(s: seq<Backup>, k: string, j: string)
    ensures Stack(Stack(s, k), j) == if j == k then Stack(s, k) else []
  {
    hide StackKey;
    if s != [] {
      StackOfList(s[1..], k, j);
    }
  }

  lemma {:induction false} StackConcat(s: seq<Backup>, t: seq<Backup>, k: string)
    ensures Stack(s + t, k) == Stack(s, k) + Stack(t, k)
  {
    hide StackKey;
    if s == [] {
      assert s + t == t;
    } else {
      assert (s + t)[1..] == s[1..] + t;
      StackConcat(s[1..], t, k);
    }
  }

  /** What the rows show of a stack is the stack itself, in its order. */
  lemma {:induction false} RowsShowStack(s: seq<Backup>, j: string)
    ensures Stack(Shown(Rows(s)), j) == Stack(s, j)
    decreases |s|
  {
    if s != [] {
      hide StackKey, Stack, Block, Shown;
      var k := StackKey(s[0]);
      var list, others := Stack(s, k), Others(s, k);
      ShownConcat(Block(k, list), Rows(others));
      ShownBlock(k, list);
      StackConcat(list, Shown(Rows(others)), j);
      StackOfList(s, k, j);
      RowsShowStack(others, j);
      if j == k {
        NoneInOthers(s, k);
      } else {
        StackOfOthers(s, j, k);
      }
    } else {
      assert Shown(Rows([])) == [];
    }
  }

  lemma {:induction false} NoneInOthers(s: seq<Backup>, k: string)
    ensures Stack(Others(s, k), k) == []
  {
    hide StackKey;
    if s != [] {
      NoneInOthers(s[1..], k);
    }
  }
}
