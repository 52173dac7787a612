/** The recognition filter and grouper (`filter_dataframe`): drop unreliable
    words, group the rest by (block, paragraph, line), summarise each group as
    one line of left-to-right tokens, drop lines without text, and order the
    lines top to bottom. */
module LineGrouping {
  import opened Wrappers
  import opened Sequences
  import opened PyStrings
  import opened ImageProcessing

  /** The hierarchy address rows are grouped by. */
  datatype Key = Key(blockNum: int, parNum: int, lineNum: int)

  /** The rows of the merged table that share one hierarchy address. */
  datatype Group = Group(key: Key, rows: seq<Row>)

  /** One output line: its tokens, the geometry of its leftmost row, and the
      numbers of the fields on it (missing when there are none). */
  datatype Line = Line(text: seq<string>, left: int, top: int, width: int, height: int, fieldId: Option<seq<int>>)

  function KeyOf(r: Row): Key
  {
    Key(r.blockNum, r.parNum, r.lineNum)
  }

  function LeftOf(r: Row): int
  {
    r.left
  }

  function TopOf(l: Line): int
  {
    l.top
  }

  /** The confidence test: structural rows (confidence at most zero) and rows
      at or above the threshold pass. */
  predicate Kept(r: Row, threshold: real)
  {
    0.0 >= r.conf || r.conf >= threshold
  }

  /** The rows that pass the confidence test, each as often as in `rows`. */
  function ConfFilter(rows: seq<Row>, threshold: real): (kept: seq<Row>)
    ensures |kept| <= |rows|
  {
    Filter(rows, (r: Row) => Kept(r, threshold))
  }

  /** The confidence filter keeps a row, as often as it occurs, exactly when it passes the test. */
  lemma ConfFilterCount(rows: seq<Row>, threshold: real, x: Row)
    ensures multiset(ConfFilter(rows, threshold))[x] == if Kept(x, threshold) then multiset(rows)[x] else 0
    ensures x in ConfFilter(rows, threshold) <==> x in rows && Kept(x, threshold)
  {
    FilterCount(rows, (r: Row) => Kept(r, threshold), x);
    FilterMember(rows, (r: Row) => Kept(r, threshold), x);
  }

  /** A field record passes the confidence test exactly when the threshold is at most 90. */
  lemma FieldRecordKept(r: Rect, id: int, threshold: real)
    ensures Kept(FieldRecord(r, id), threshold) <==> threshold <= FieldConf
  {
  }

  /** The distinct addresses of `rows`, in order of first appearance. */
  function DistinctKeys(rows: seq<Row>): (keys: seq<Key>)
    ensures forall i, j :: 0 <= i < j < |keys| ==> keys[i] != keys[j]
    ensures forall k :: k in keys ==> exists i :: 0 <= i < |rows| && KeyOf(rows[i]) == k
  {
    if rows == [] then []
    else
      var keys := DistinctKeys(rows[..|rows| - 1]);
      var k := KeyOf(rows[|rows| - 1]);
      if k in keys then keys else keys + [k]
  }

  /** Every address of `rows` is among the distinct addresses. */
  lemma {:induction false} DistinctKeysCover(rows: seq<Row>, i: int)
    requires 0 <= i < |rows|
    ensures KeyOf(rows[i]) in DistinctKeys(rows)
  {
    var init := rows[..|rows| - 1];
    if i < |rows| - 1 {
      assert rows[i] == init[i];
      DistinctKeysCover(init, i);
    }
  }

  /** The rows with address `k`, in table order. */
  function RowsWithKey(rows: seq<Row>, k: Key): (r: seq<Row>)
    ensures forall i :: 0 <= i < |r| ==> KeyOf(r[i]) == k
  {
    Filter(rows, (x: Row) => KeyOf(x) == k)
  }

  lemma RowsWithKeyCount(rows: seq<Row>, k: Key, x: Row)
    ensures multiset(RowsWithKey(rows, k))[x] == if KeyOf(x) == k then multiset(rows)[x] else 0
    ensures x in RowsWithKey(rows, k) <==> x in rows && KeyOf(x) == k
  {
    FilterCount(rows, (y: Row) => KeyOf(y) == k, x);
    FilterMember(rows, (y: Row) => KeyOf(y) == k, x);
  }

  /** Grouping by address: one group per distinct address, holding exactly
      the rows with that address. */
  function GroupBy(rows: seq<Row>): (groups: seq<Group>)
    ensures forall i, j :: 0 <= i < j < |groups| ==> groups[i].key != groups[j].key
    ensures forall i :: 0 <= i < |groups| ==> groups[i].rows == RowsWithKey(rows, groups[i].key) && groups[i].rows != []
  {
    var keys := DistinctKeys(rows);
    var groups := GroupsFor(rows, keys);
    forall j | 0 <= j < |groups| ensures groups[j].rows != [] {
      assert keys[j] in keys;
      RowsWithKeyNonEmpty(rows, keys[j]);
    }
    groups
  }

  /** Every row's address has its group. */
  lemma GroupByCovers(rows: seq<Row>, i: int) returns (j: int)
    requires 0 <= i < |rows|
    ensures 0 <= j < |GroupBy(rows)| && GroupBy(rows)[j].key == KeyOf(rows[i])
  {
    var keys := DistinctKeys(rows);
    DistinctKeysCover(rows, i);
    j :| 0 <= j < |keys| && keys[j] == KeyOf(rows[i]);
  }

  /** One group per key of `keys`, holding the rows of `rows` with that key. */
  function GroupsFor(rows: seq<Row>, keys: seq<Key>): (groups: seq<Group>)
    ensures |groups| == |keys|
    ensures forall i :: 0 <= i < |groups| ==> groups[i] == Group(keys[i], RowsWithKey(rows, keys[i]))
  {
    if keys == [] then []
    else [Group(keys[0], RowsWithKey(rows, keys[0]))] + GroupsFor(rows, keys[1..])
  }

  lemma RowsWithKeyNonEmpty(rows: seq<Row>, k: Key)
    requires exists i :: 0 <= i < |rows| && KeyOf(rows[i]) == k
    ensures RowsWithKey(rows, k) != []
  {
    var i :| 0 <= i < |rows| && KeyOf(rows[i]) == k;
    RowsWithKeyCount(rows, k, rows[i]);
  }

  /** `str(e).strip()` is non-empty for a present token. */
  predicate HasToken(r: Row)
  {
    r.text.Some? && Strip(r.text.value) != ""
  }

  function TokenOf(r: Row): string
  {
    if r.text.Some? then Strip(r.text.value) else ""
  }

  predicate HasId(r: Row)
  {
    r.fieldId.Some?
  }

  function IdOf(r: Row): int
  {
    if r.fieldId.Some? then r.fieldId.value else 0
  }

  /** The `text` aggregate: the stripped, non-empty present tokens, in row order. */
  function Tokens(rows: seq<Row>): (tokens: seq<string>)
    ensures |tokens| == |Filter(rows, HasToken)|
    ensures forall i :: 0 <= i < |tokens| ==>
              tokens[i] != "" && !IsSpace(tokens[i][0]) && !IsSpace(tokens[i][|tokens[i]| - 1])
  {
    Map(Filter(rows, HasToken), TokenOf)
  }

  /** Token `i` is the stripped text of the `i`-th row that has a non-blank token. */
  lemma TokensContent(rows: seq<Row>, i: int)
    requires 0 <= i < |Tokens(rows)|
    ensures var r := Filter(rows, HasToken)[i];
            r.text.Some? && Tokens(rows)[i] == Strip(r.text.value) != ""
  {
  }

  /** The `field_id` aggregate: the present field numbers in row order, or
      missing when there are none. */
  function FieldIds(rows: seq<Row>): (ids: Option<seq<int>>)
    ensures ids.None? <==> forall i :: 0 <= i < |rows| ==> !HasId(rows[i])
    ensures ids.Some? ==> ids.value == Map(Filter(rows, HasId), IdOf)
  {
    var ids := Map(Filter(rows, HasId), IdOf);
    if ids == [] then
      assert forall i :: 0 <= i < |rows| ==> !HasId(rows[i]) by {
        forall i | 0 <= i < |rows| ensures !HasId(rows[i]) {
          FilterMember(rows, HasId, rows[i]);
        }
      }
      None
    else
      assert exists i :: 0 <= i < |rows| && HasId(rows[i]) by {
        FilterMember(rows, HasId, Filter(rows, HasId)[0]);
      }
      Some(ids)
  }

  /** One group as one line: rows sorted by `left`, then tokens, the geometry
      of the first (leftmost) row, and the field numbers. */
  function Aggregate(g: Group): (l: Line)
    requires g.rows != []
    ensures exists p :: IsSortingOf(p, Filter(g.rows, HasToken), LeftOf) && l.text == Map(p, TokenOf)
    ensures l.fieldId.None? <==> forall i :: 0 <= i < |g.rows| ==> !HasId(g.rows[i])
    ensures l.fieldId.Some? ==>
              exists p :: IsSortingOf(p, Filter(g.rows, HasId), LeftOf) && l.fieldId.value == Map(p, IdOf)
    ensures exists i :: 0 <= i < |g.rows| && LeftOf(g.rows[i]) == l.left && g.rows[i].top == l.top
                        && g.rows[i].width == l.width && g.rows[i].height == l.height
                        && forall j :: 0 <= j < |g.rows| ==> l.left <= LeftOf(g.rows[j])
  {
    var s := SortBy(g.rows, LeftOf);
    SummaryFacts(g.rows, s);
    LineOf(s)
  }

  /** The line of rows already in left-to-right order. */
  function LineOf(s: seq<Row>): Line
    requires s != []
  {
    Line(Tokens(s), s[0].left, s[0].top, s[0].width, s[0].height, FieldIds(s))
  }

  /** The facts `Aggregate` rests on, for a left-to-right arrangement `s` of `rows`. */
  lemma SummaryFacts(rows: seq<Row>, s: seq<Row>)
    requires rows != [] && IsSortingOf(s, rows, LeftOf)
    ensures s != []
    ensures var l := LineOf(s);
            exists p :: IsSortingOf(p, Filter(rows, HasToken), LeftOf) && l.text == Map(p, TokenOf)
    ensures var l := LineOf(s);
            l.fieldId.None? <==> forall i :: 0 <= i < |rows| ==> !HasId(rows[i])
    ensures var l := LineOf(s);
            l.fieldId.Some? ==>
              exists p :: IsSortingOf(p, Filter(rows, HasId), LeftOf) && l.fieldId.value == Map(p, IdOf)
    ensures var l := LineOf(s);
            exists i :: 0 <= i < |rows| && LeftOf(rows[i]) == l.left && rows[i].top == l.top
                        && rows[i].width == l.width && rows[i].height == l.height
                        && forall j :: 0 <= j < |rows| ==> l.left <= LeftOf(rows[j])
  {
    assert |s| == |rows| by {
      assert |multiset(s)| == |multiset(rows)|;
    }
    var l := LineOf(s);
    LeftmostFirst(rows, s);
    FilterSorted(s, HasToken, LeftOf);
    FilterPermutation(s, rows, HasToken);
    assert IsSortingOf(Filter(s, HasToken), Filter(rows, HasToken), LeftOf);
    FilterSorted(s, HasId, LeftOf);
    FilterPermutation(s, rows, HasId);
    if l.fieldId.Some? {
      assert IsSortingOf(Filter(s, HasId), Filter(rows, HasId), LeftOf);
    }
    SameIdPresence(rows, s);
    assert l.text == Map(Filter(s, HasToken), TokenOf);
  }

  lemma LeftmostFirst(rows: seq<Row>, s: seq<Row>)
    requires rows != [] && IsSortingOf(s, rows, LeftOf)
    ensures s != []
    ensures exists i :: 0 <= i < |rows| && rows[i] == s[0]
    ensures forall j :: 0 <= j < |rows| ==> s[0].left <= LeftOf(rows[j])
  {
    assert rows[0] in multiset(s);
    assert s[0] in multiset(rows);
    forall j | 0 <= j < |rows| ensures s[0].left <= LeftOf(rows[j]) {
      assert rows[j] in multiset(s);
      var k :| 0 <= k < |s| && s[k] == rows[j];
    }
  }

  lemma SameIdPresence(rows: seq<Row>, s: seq<Row>)
    requires multiset(s) == multiset(rows)
    ensures (forall i :: 0 <= i < |s| ==> !HasId(s[i])) <==> (forall i :: 0 <= i < |rows| ==> !HasId(rows[i]))
  {
    if exists i :: 0 <= i < |s| && HasId(s[i]) {
      var i :| 0 <= i < |s| && HasId(s[i]);
      assert s[i] in multiset(rows);
    }
    if exists i :: 0 <= i < |rows| && HasId(rows[i]) {
      var i :| 0 <= i < |rows| && HasId(rows[i]);
      assert rows[i] in multiset(s);
    }
  }

  /** Python's `any` over strings: some string is non-empty. */
  predicate AnyTruthy(ts: seq<string>)
  {
    exists i :: 0 <= i < |ts| && ts[i] != ""
  }

  predicate HasText(l: Line)
  {
    AnyTruthy(l.text)
  }

  /** Every group summarised, in group order. */
  function Summaries(groups: seq<Group>): (lines: seq<Line>)
    requires forall i :: 0 <= i < |groups| ==> groups[i].rows != []
    ensures |lines| == |groups|
    ensures forall i :: 0 <= i < |groups| ==> lines[i] == Aggregate(groups[i])
  {
    seq(|groups|, i requires 0 <= i < |groups| => Aggregate(groups[i]))
  }

  /** The whole of `filter_dataframe`: confidence filter, grouping, summary,
      removal of lines without text, and ordering by `top`. */
  function FilterDataFrame(rows: seq<Row>, threshold: real): (lines: seq<Line>)
    ensures SortedBy(lines, TopOf)
    ensures multiset(lines) == multiset(Filter(Summaries(GroupBy(ConfFilter(rows, threshold))), HasText))
  {
    var groups := GroupBy(ConfFilter(rows, threshold));
    var survivors := Filter(Summaries(groups), HasText);
    SortBy(survivors, TopOf)
  }

  /** Every output line has at least one token. */
  lemma OutputLinesHaveText(rows: seq<Row>, threshold: real, l: Line)
    requires l in FilterDataFrame(rows, threshold)
    ensures l.text != []
  {
    var survivors := Filter(Summaries(GroupBy(ConfFilter(rows, threshold))), HasText);
    assert l in multiset(survivors);
    FilterMember(Summaries(GroupBy(ConfFilter(rows, threshold))), HasText, l);
  }

  /** All rows of `groups`, group after group. */
  function AllRows(groups: seq<Group>): seq<Row>
  {
    if groups == [] then [] else groups[0].rows + AllRows(groups[1..])
  }

  /** Grouping loses and duplicates no row: the groups together hold exactly the rows. */
  lemma GroupByPartition(rows: seq<Row>)
    ensures multiset(AllRows(GroupBy(rows))) == multiset(rows)
  {
    var keys := DistinctKeys(rows);
    forall x ensures multiset(AllRows(GroupBy(rows)))[x] == multiset(rows)[x] {
      GroupsForCount(rows, keys, x);
      if x in rows {
        var i :| 0 <= i < |rows| && rows[i] == x;
        DistinctKeysCover(rows, i);
      }
    }
  }

  lemma {:induction false} GroupsForCount(rows: seq<Row>, keys: seq<Key>, x: Row)
    requires forall i, j :: 0 <= i < j < |keys| ==> keys[i] != keys[j]
    ensures multiset(AllRows(GroupsFor(rows, keys)))[x] == if KeyOf(x) in keys then multiset(rows)[x] else 0
  {
    if keys != [] {
      GroupsForCount(rows, keys[1..], x);
      RowsWithKeyCount(rows, keys[0], x);
      var gs := GroupsFor(rows, keys);
      assert gs == [Group(keys[0], RowsWithKey(rows, keys[0]))] + GroupsFor(rows, keys[1..]);
      assert AllRows(gs) == RowsWithKey(rows, keys[0]) + AllRows(GroupsFor(rows, keys[1..]));
      assert KeyOf(x) in keys <==> KeyOf(x) == keys[0] || KeyOf(x) in keys[1..];
      assert KeyOf(x) == keys[0] ==> KeyOf(x) !in keys[1..];
    }
  }

  /** Some element of `s` has a non-blank token exactly when some element of `rows` has. */
  lemma TokenPresencePermutation(rows: seq<Row>, s: seq<Row>)
    requires multiset(s) == multiset(rows)
    ensures (exists i :: 0 <= i < |s| && HasToken(s[i])) <==> (exists i :: 0 <= i < |rows| && HasToken(rows[i]))
  {
    if exists i :: 0 <= i < |s| && HasToken(s[i]) {
      var i :| 0 <= i < |s| && HasToken(s[i]);
      assert s[i] in multiset(rows);
    }
    if exists i :: 0 <= i < |rows| && HasToken(rows[i]) {
      var i :| 0 <= i < |rows| && HasToken(rows[i]);
      assert rows[i] in multiset(s);
    }
  }

  lemma TokensNonEmpty(s: seq<Row>)
    ensures Tokens(s) != [] <==> exists i :: 0 <= i < |s| && HasToken(s[i])
  {
    if Tokens(s) != [] {
      FilterMember(s, HasToken, Filter(s, HasToken)[0]);
    }
    if exists i :: 0 <= i < |s| && HasToken(s[i]) {
      var i :| 0 <= i < |s| && HasToken(s[i]);
      FilterMember(s, HasToken, s[i]);
    }
  }

  /** A group's line has text exactly when one of its rows has a non-blank token. */
  lemma TextIffToken(g: Group)
    requires g.rows != []
    ensures HasText(Aggregate(g)) <==> exists i :: 0 <= i < |g.rows| && HasToken(g.rows[i])
  {
    var s := SortBy(g.rows, LeftOf);
    var text := Tokens(s);
    assert Aggregate(g).text == text;
    TokensNonEmpty(s);
    TokenPresencePermutation(g.rows, s);
    assert HasText(Aggregate(g)) <==> text != [] by {
      if text != [] {
        assert text[0] != "";
      }
    }
  }

  /** The summary of the kept rows that share the address of `kept[i]`. */
  function LineOfRow(kept: seq<Row>, i: nat): Line
    requires i < |kept|
  {
    RowsWithKeyNonEmpty(kept, KeyOf(kept[i]));
    Aggregate(Group(KeyOf(kept[i]), RowsWithKey(kept, KeyOf(kept[i]))))
  }

  /** The lines of `filter_dataframe` are exactly the summaries of those
      addresses whose kept rows include a non-blank token: blank groups,
      among them groups made only of field records, are dropped, and every
      group with text appears. */
  lemma OutputLines(rows: seq<Row>, threshold: real, l: Line)
    ensures var kept := ConfFilter(rows, threshold);
            l in FilterDataFrame(rows, threshold) <==>
            exists i :: 0 <= i < |kept| && HasToken(kept[i]) && l == LineOfRow(kept, i)
  {
    var kept := ConfFilter(rows, threshold);
    if l in FilterDataFrame(rows, threshold) {
      var i := OutputLineSource(kept, threshold, rows, l);
    }
    if exists i :: 0 <= i < |kept| && HasToken(kept[i]) && l == LineOfRow(kept, i) {
      var i :| 0 <= i < |kept| && HasToken(kept[i]) && l == LineOfRow(kept, i);
      GroupWithTokenIsOutput(kept, threshold, rows, i);
    }
  }

  lemma OutputLineSource(kept: seq<Row>, threshold: real, rows: seq<Row>, l: Line) returns (i: nat)
    requires kept == ConfFilter(rows, threshold)
    requires l in FilterDataFrame(rows, threshold)
    ensures i < |kept| && HasToken(kept[i]) && l == LineOfRow(kept, i)
  {
    var groups := GroupBy(kept);
    var sums := Summaries(groups);
    PermutedFilterMember(sums, HasText, FilterDataFrame(rows, threshold), l);
    var j :| 0 <= j < |sums| && sums[j] == l && HasText(l);
    i := TokenRowOfGroup(kept, groups[j]);
  }

  /** A group of `kept` whose line has text holds a row of `kept` with a token. */
  lemma TokenRowOfGroup(kept: seq<Row>, g: Group) returns (i: nat)
    requires g.rows != [] && g.rows == RowsWithKey(kept, g.key) && HasText(Aggregate(g))
    ensures i < |kept| && HasToken(kept[i]) && KeyOf(kept[i]) == g.key && Aggregate(g) == LineOfRow(kept, i)
  {
    TextIffToken(g);
    var k :| 0 <= k < |g.rows| && HasToken(g.rows[k]);
    var x := g.rows[k];
    RowsWithKeyCount(kept, g.key, x);
    i :| 0 <= i < |kept| && kept[i] == x;
  }

  lemma GroupWithTokenIsOutput(kept: seq<Row>, threshold: real, rows: seq<Row>, i: nat)
    requires kept == ConfFilter(rows, threshold)
    requires i < |kept| && HasToken(kept[i])
    ensures LineOfRow(kept, i) in FilterDataFrame(rows, threshold)
  {
    var groups := GroupBy(kept);
    var sums := Summaries(groups);
    var j := GroupByCovers(kept, i);
    GroupOfTokenRowHasText(kept, groups[j], i);
    PermutedFilterIncludes(sums, HasText, FilterDataFrame(rows, threshold), j);
  }

  /** The group of a kept row with a token is that row's line, and it has text. */
  lemma GroupOfTokenRowHasText(kept: seq<Row>, g: Group, i: nat)
    requires i < |kept| && HasToken(kept[i]) && g.key == KeyOf(kept[i])
    requires g.rows != [] && g.rows == RowsWithKey(kept, g.key)
    ensures Aggregate(g) == LineOfRow(kept, i) && HasText(Aggregate(g))
  {
    RowsWithKeyCount(kept, g.key, kept[i]);
    var k :| 0 <= k < |g.rows| && g.rows[k] == kept[i];
    TextIffToken(g);
  }

  /** Every field number on an output line is that of a kept row whose
      address is shared by a kept row with a non-blank token. */
  lemma FieldIdProvenance(rows: seq<Row>, threshold: real, l: Line, id: int)
    requires l in FilterDataFrame(rows, threshold) && l.fieldId.Some? && id in l.fieldId.value
    ensures var kept := ConfFilter(rows, threshold);
            exists i, j :: 0 <= i < |kept| && 0 <= j < |kept| && kept[i].fieldId == Some(id)
                           && KeyOf(kept[j]) == KeyOf(kept[i]) && HasToken(kept[j])
  {
    var kept := ConfFilter(rows, threshold);
    var j := OutputLineSource(kept, threshold, rows, l);
    var g := Group(KeyOf(kept[j]), RowsWithKey(kept, KeyOf(kept[j])));
    assert l == Aggregate(g);
    var x := FieldIdSource(g, id);
    var i := IndexOfGroupRow(kept, g.key, x);
  }

  /** A field number on a group's line is that of one of the group's rows. */
  lemma FieldIdSource(g: Group, id: int) returns (x: Row)
    requires g.rows != [] && Aggregate(g).fieldId.Some? && id in Aggregate(g).fieldId.value
    ensures x in g.rows && x.fieldId == Some(id)
  {
    var l := Aggregate(g);
    var p :| IsSortingOf(p, Filter(g.rows, HasId), LeftOf) && l.fieldId.value == Map(p, IdOf);
    var m :| 0 <= m < |p| && IdOf(p[m]) == id;
    x := p[m];
    assert x in multiset(Filter(g.rows, HasId));
    FilterMember(g.rows, HasId, x);
  }

  /** A row of the group of address `k` sits at some position of the table. */
  lemma IndexOfGroupRow(kept: seq<Row>, k: Key, x: Row) returns (i: nat)
    requires x in RowsWithKey(kept, k)
    ensures i < |kept| && kept[i] == x && KeyOf(x) == k
  {
    RowsWithKeyCount(kept, k, x);
    i :| 0 <= i < |kept| && kept[i] == x;
  }

  /** The output line that carries field number `id` is the line of a kept
      row with that number. */
  lemma FieldLineSource(rows: seq<Row>, threshold: real, l: Line, id: int) returns (i: nat)
    requires l in FilterDataFrame(rows, threshold) && l.fieldId.Some? && id in l.fieldId.value
    ensures var kept := ConfFilter(rows, threshold);
            i < |kept| && kept[i].fieldId == Some(id) && l == LineOfRow(kept, i)
  {
    var kept := ConfFilter(rows, threshold);
    var j := OutputLineSource(kept, threshold, rows, l);
    var g := Group(KeyOf(kept[j]), RowsWithKey(kept, KeyOf(kept[j])));
    assert l == Aggregate(g);
    var x := FieldIdSource(g, id);
    i := IndexOfGroupRow(kept, g.key, x);
  }

  /** At most one distinct row of `rows` carries field number `id`. */
  predicate FieldIdUniqueIn(rows: seq<Row>, id: int)
  {
    forall a, b :: a in rows && b in rows && a.fieldId == Some(id) && b.fieldId == Some(id) ==> a == b
  }

  /** When one row carries field number `id`, at most one output line lists it. */
  lemma FieldIdOnOneLine(rows: seq<Row>, threshold: real, l1: Line, l2: Line, id: int)
    requires FieldIdUniqueIn(rows, id)
    requires l1 in FilterDataFrame(rows, threshold) && l1.fieldId.Some? && id in l1.fieldId.value
    requires l2 in FilterDataFrame(rows, threshold) && l2.fieldId.Some? && id in l2.fieldId.value
    ensures l1 == l2
  {
    var kept := ConfFilter(rows, threshold);
    var i1 := FieldLineSource(rows, threshold, l1, id);
    var i2 := FieldLineSource(rows, threshold, l2, id);
    ConfFilterCount(rows, threshold, kept[i1]);
    ConfFilterCount(rows, threshold, kept[i2]);
    assert kept[i1] == kept[i2];
  }

  /** ... and that line occurs once in the output. */
  lemma FieldLineOnce(rows: seq<Row>, threshold: real, l: Line, id: int)
    requires FieldIdUniqueIn(rows, id)
    requires l in FilterDataFrame(rows, threshold) && l.fieldId.Some? && id in l.fieldId.value
    ensures multiset(FilterDataFrame(rows, threshold))[l] == 1
  {
    var kept := ConfFilter(rows, threshold);
    var sums := Summaries(GroupBy(kept));
    PermutedFilterMember(sums, HasText, FilterDataFrame(rows, threshold), l);
    var k :| 0 <= k < |sums| && sums[k] == l;
    FieldIdUniqueKept(rows, threshold, id);
    forall m | 0 <= m < |sums| && sums[m] == l
      ensures m == k
    {
      SameFieldSameGroup(kept, id, m, k);
    }
    OccursOnce(sums, l, k);
    FilterCount(sums, HasText, l);
  }

  /** The confidence filter keeps field numbers unique. */
  lemma FieldIdUniqueKept(rows: seq<Row>, threshold: real, id: int)
    requires FieldIdUniqueIn(rows, id)
    ensures FieldIdUniqueIn(ConfFilter(rows, threshold), id)
  {
    var kept := ConfFilter(rows, threshold);
    forall a, b | a in kept && b in kept && a.fieldId == Some(id) && b.fieldId == Some(id)
      ensures a == b
    {
      ConfFilterCount(rows, threshold, a);
      ConfFilterCount(rows, threshold, b);
    }
  }

  /** Two groups with the same line listing a unique field number are one group. */
  lemma SameFieldSameGroup(kept: seq<Row>, id: int, m: int, k: int)
    requires FieldIdUniqueIn(kept, id)
    requires 0 <= m < |GroupBy(kept)| && 0 <= k < |GroupBy(kept)|
    requires Aggregate(GroupBy(kept)[k]).fieldId.Some? && id in Aggregate(GroupBy(kept)[k]).fieldId.value
    requires Aggregate(GroupBy(kept)[m]) == Aggregate(GroupBy(kept)[k])
    ensures m == k
  {
    var groups := GroupBy(kept);
    var x := FieldIdSource(groups[m], id);
    var y := FieldIdSource(groups[k], id);
    var a := IndexOfGroupRow(kept, groups[m].key, x);
    var b := IndexOfGroupRow(kept, groups[k].key, y);
    assert x == y;
  }

  /** In the merged table of a page, every field number belongs to one row. */
  lemma MergedFieldIdUnique(ocr: seq<OcrRow>, rects: seq<Rect>, shift: int, id: int)
    ensures FieldIdUniqueIn(Merged(ocr, rects, shift), id)
  {
    var rows := Merged(ocr, rects, shift);
    forall a, b | a in rows && b in rows && a.fieldId == Some(id) && b.fieldId == Some(id)
      ensures a == b
    {
      MergedFieldRow(ocr, rects, shift, id, a);
      MergedFieldRow(ocr, rects, shift, id, b);
    }
  }

  /** The row of the merged table with field number `id` is the associated `id`-th field record. */
  lemma MergedFieldRow(ocr: seq<OcrRow>, rects: seq<Rect>, shift: int, id: int, x: Row)
    requires x in Merged(ocr, rects, shift) && x.fieldId == Some(id)
    ensures 1 <= id <= |rects| && x == Associate(FieldRecord(rects[id - 1], id), ocr, shift)
  {
    MergedRowKind(ocr, rects, shift, x);
  }

  /** On a page, a field number is listed by at most one output line, and
      that line occurs once. */
  lemma PageFieldOnOneLine(ocr: seq<OcrRow>, rects: seq<Rect>, shift: int, threshold: real,
                           l1: Line, l2: Line, id: int)
    requires l1 in FilterDataFrame(Merged(ocr, rects, shift), threshold) && l1.fieldId.Some? && id in l1.fieldId.value
    requires l2 in FilterDataFrame(Merged(ocr, rects, shift), threshold) && l2.fieldId.Some? && id in l2.fieldId.value
    ensures l1 == l2
    ensures multiset(FilterDataFrame(Merged(ocr, rects, shift), threshold))[l1] == 1
  {
    MergedFieldIdUnique(ocr, rects, shift, id);
    FieldIdOnOneLine(Merged(ocr, rects, shift), threshold, l1, l2, id);
    FieldLineOnce(Merged(ocr, rects, shift), threshold, l1, id);
  }

  /** A field record carries no token: its text is a single blank. */
  lemma FieldRecordBlank(r: Rect, id: int)
    ensures !HasToken(FieldRecord(r, id))
  {
    assert AllSpace(FieldText);
  }

  /** With OCR block numbers never negative, a field that touches no text
      line is the only row of the merged table at its placeholder address. */
  lemma UnmatchedFieldAlone(ocr: seq<OcrRow>, rects: seq<Rect>, shift: int, i: int, y: Row)
    requires 0 <= i < |rects|
    requires forall k :: 0 <= k < |ocr| ==> ocr[k].blockNum >= 0
    requires LastMatch(FieldRecord(rects[i], i + 1), ocr, shift).None?
    requires y in Merged(ocr, rects, shift) && KeyOf(y) == KeyOf(FieldRecord(rects[i], i + 1))
    ensures y == FieldRecord(rects[i], i + 1)
  {
    MergedRowKind(ocr, rects, shift, y);
    if y.fieldId.Some? {
      var m := y.fieldId.value;
      AssociateOnlyMoves(FieldRecord(rects[m - 1], m), ocr, shift);
    }
  }

  /** A field that touches no text line appears on no output line: its
      group holds only its own blank record and is dropped for lack of text. */
  lemma UnmatchedFieldDropped(ocr: seq<OcrRow>, rects: seq<Rect>, shift: int, threshold: real, i: int, l: Line)
    requires 0 <= i < |rects|
    requires forall k :: 0 <= k < |ocr| ==> ocr[k].blockNum >= 0
    requires LastMatch(FieldRecord(rects[i], i + 1), ocr, shift).None?
    requires l in FilterDataFrame(Merged(ocr, rects, shift), threshold)
    ensures l.fieldId.None? || i + 1 !in l.fieldId.value
  {
    UnmatchedFieldAddressBlank(ocr, rects, shift, i);
    BlankFieldOffLines(Merged(ocr, rects, shift), threshold, l, i + 1);
  }

  /** No row with a non-blank token shares an address with a row carrying field number `id`. */
  predicate FieldAddressBlank(rows: seq<Row>, id: int)
  {
    forall x, y :: x in rows && y in rows && x.fieldId == Some(id) && KeyOf(y) == KeyOf(x) ==> !HasToken(y)
  }

  /** A field number whose address holds no text appears on no output line. */
  lemma BlankFieldOffLines(rows: seq<Row>, threshold: real, l: Line, id: int)
    requires FieldAddressBlank(rows, id)
    requires l in FilterDataFrame(rows, threshold)
    ensures l.fieldId.None? || id !in l.fieldId.value
  {
    if l.fieldId.Some? && id in l.fieldId.value {
      var x, y := FieldAndTextRows(rows, threshold, l, id);
      assert false;
    }
  }

  /** The address of a field that touches no text line holds no text. */
  lemma UnmatchedFieldAddressBlank(ocr: seq<OcrRow>, rects: seq<Rect>, shift: int, i: int)
    requires 0 <= i < |rects|
    requires forall k :: 0 <= k < |ocr| ==> ocr[k].blockNum >= 0
    requires LastMatch(FieldRecord(rects[i], i + 1), ocr, shift).None?
    ensures FieldAddressBlank(Merged(ocr, rects, shift), i + 1)
  {
    var rows := Merged(ocr, rects, shift);
    forall x, y | x in rows && y in rows && x.fieldId == Some(i + 1) && KeyOf(y) == KeyOf(x)
      ensures !HasToken(y)
    {
      UnmatchedFieldNoText(ocr, rects, shift, i, x, y);
    }
  }

  /** No row with a non-blank token shares the address of a field that touches no text line. */
  lemma UnmatchedFieldNoText(ocr: seq<OcrRow>, rects: seq<Rect>, shift: int, i: int, x: Row, y: Row)
    requires 0 <= i < |rects|
    requires forall k :: 0 <= k < |ocr| ==> ocr[k].blockNum >= 0
    requires LastMatch(FieldRecord(rects[i], i + 1), ocr, shift).None?
    requires x in Merged(ocr, rects, shift) && x.fieldId == Some(i + 1)
    requires y in Merged(ocr, rects, shift) && KeyOf(y) == KeyOf(x)
    ensures !HasToken(y)
  {
    MergedFieldRow(ocr, rects, shift, i + 1, x);
    AssociateOnlyMoves(FieldRecord(rects[i], i + 1), ocr, shift);
    UnmatchedFieldAlone(ocr, rects, shift, i, y);
    FieldRecordBlank(rects[i], i + 1);
  }

  /** The rows behind a field number on an output line: the field's row and
      a row with a non-blank token at the same address. */
  lemma FieldAndTextRows(rows: seq<Row>, threshold: real, l: Line, id: int) returns (x: Row, y: Row)
    requires l in FilterDataFrame(rows, threshold) && l.fieldId.Some? && id in l.fieldId.value
    ensures x in rows && y in rows && x.fieldId == Some(id) && KeyOf(y) == KeyOf(x) && HasToken(y)
  {
    FieldIdProvenance(rows, threshold, l, id);
    var kept := ConfFilter(rows, threshold);
    var a, b :| 0 <= a < |kept| && 0 <= b < |kept| && kept[a].fieldId == Some(id)
                && KeyOf(kept[b]) == KeyOf(kept[a]) && HasToken(kept[b]);
    x, y := kept[a], kept[b];
    ConfFilterCount(rows, threshold, x);
    ConfFilterCount(rows, threshold, y);
  }
}
