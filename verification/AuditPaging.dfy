/** Reading an audit trail page by page (web/lib/audit.ts:97-127) while events are still being written. */
module AuditPaging {
  import opened Common

  /** Where an event stands in the order of the query; the id is unique. */
  datatype Key = Key(at: nat, order: nat, id: nat)

  predicate Below(a: Key, b: Key) {
    a.at < b.at || (a.at == b.at && (a.order < b.order || (a.order == b.order && a.id < b.id)))
  }

  /** Newest first, with no event twice. */
  ghost predicate Descending(page: seq<Key>) {
    forall i, j :: 0 <= i < j < |page| ==> Below(page[j], page[i])
  }

  predicate After(k: Key, cursor: Option<Key>) {
    cursor.Some? ==> Below(k, cursor.value)
  }

  /** What the query answers: the newest `limit` of the events after the cursor, in order. */
  ghost predicate IsPage(table: set<Key>, cursor: Option<Key>, limit: nat, page: seq<Key>) {
    && Descending(page) && |page| <= limit
    && (forall i :: 0 <= i < |page| ==> page[i] in table && After(page[i], cursor))
    && (forall k :: k in table && After(k, cursor) ==>
          k in page || (|page| == limit && |page| > 0 && Below(k, page[|page| - 1])))
  }

  function CursorAfter(page: seq<Key>, cursor: Option<Key>): Option<Key> {
    if page == [] then cursor else Some(page[|page| - 1])
  }

  /** The pages in order, each read from the cursor of the one before, over tables that only grow; the last is not full. */
  ghost predicate Paging(tables: seq<set<Key>>, pages: seq<seq<Key>>, limit: nat) {
    && |pages| > 0 && |tables| == |pages| && 0 < limit
    && (forall i :: 0 <= i < |pages| ==> tables[0] <= tables[i] && IsPage(tables[i], CursorAt(pages, i), limit, pages[i]))
    && |pages[|pages| - 1]| < limit
  }

  function CursorAt(pages: seq<seq<Key>>, i: nat): Option<Key>
    requires i <= |pages|
  {
    if i == 0 then None else CursorAfter(pages[i - 1], CursorAt(pages, i - 1))
  }

  function Flat(pages: seq<seq<Key>>): seq<Key> {
    if pages == [] then [] else Flat(pages[..|pages| - 1]) + pages[|pages| - 1]
  }

  lemma {:induction false} CursorsOfPrefix(pages: seq<seq<Key>>, n: nat, i: nat)
    requires i <= n <= |pages|
    ensures CursorAt(pages[..n], i) == CursorAt(pages, i)
  {
    if i > 0 { CursorsOfPrefix(pages, n, i - 1); }
  }

  /** After n pages: what was read is in order and not below the cursor, and holds every starting event not after it. */
  lemma {:induction false} PagesSoFar(tables: seq<set<Key>>, pages: seq<seq<Key>>, limit: nat, n: nat)
    requires Paging(tables, pages, limit) && n <= |pages|
    ensures Descending(Flat(pages[..n]))
    ensures forall i :: 0 <= i < |Flat(pages[..n])| ==> !After(Flat(pages[..n])[i], CursorAt(pages, n))
    ensures forall k :: k in tables[0] && !After(k, CursorAt(pages, n)) ==> k in Flat(pages[..n])
    ensures n > 0 && |pages[n - 1]| < limit ==> forall k :: k in tables[0] ==> k in Flat(pages[..n])
  {
    if n > 0 {
      PagesSoFar(tables, pages, limit, n - 1);
      assert pages[..n][..n - 1] == pages[..n - 1];
      var before, page := Flat(pages[..n - 1]), pages[n - 1];
      assert IsPage(tables[n - 1], CursorAt(pages, n - 1), limit, page);
      PageFollows(before, page, CursorAt(pages, n - 1));
    }
  }

  lemma PageFollows(before: seq<Key>, page: seq<Key>, cursor: Option<Key>)
    requires Descending(before) && forall i :: 0 <= i < |before| ==> !After(before[i], cursor)
    requires Descending(page) && forall i :: 0 <= i < |page| ==> After(page[i], cursor)
    ensures Descending(before + page)
    ensures forall i :: 0 <= i < |before + page| ==> !After((before + page)[i], CursorAfter(page, cursor))
  {
  }

  /**
    Following the cursors to the end reads every event there was at the start exactly once, newest first, ties
    included, however many events are written meanwhile.
  */
  lemma PagingIsLossless(tables: seq<set<Key>>, pages: seq<seq<Key>>, limit: nat)
    requires Paging(tables, pages, limit)
    ensures Descending(Flat(pages))
    ensures forall k :: k in tables[0] ==> k in Flat(pages)
    ensures NoneTwice(Flat(pages))
  {
    assert pages[..|pages|] == pages;
    PagesSoFar(tables, pages, limit, |pages|);
    DescendingHasNoneTwice(Flat(pages));
  }

  ghost predicate NoneTwice(s: seq<Key>) {
    forall i, j :: 0 <= i < j < |s| ==> s[i] != s[j]
  }

  lemma DescendingHasNoneTwice(s: seq<Key>)
    requires Descending(s)
    ensures NoneTwice(s)
  {
  }

  // ----- the cursor's text -----

  predicate IsDigit(c: char) { '0' <= c <= '9' }
  predicate IsHex(c: char) { IsDigit(c) || 'a' <= c <= 'f' }

  function DigitChar(d: nat): (c: char)
    requires d < 10
    ensures IsDigit(c) && c as int - '0' as int == d
  {
    ('0' as int + d) as char
  }

  function Decimal(n: nat): (s: string)
    ensures |s| > 0 && forall i :: 0 <= i < |s| ==> IsDigit(s[i])
  {
    if n < 10 then [DigitChar(n)] else Decimal(n / 10) + [DigitChar(n % 10)]
  }

  function Value(s: string): nat
    requires forall i :: 0 <= i < |s| ==> IsDigit(s[i])
  {
    if s == [] then 0
    else
      assert IsDigit(s[|s| - 1]);
      10 * Value(s[..|s| - 1]) + (s[|s| - 1] as int - '0' as int)
  }

  function Pow10(d: nat): nat { if d == 0 then 1 else 10 * Pow10(d - 1) }

  lemma {:induction false} DecimalReadsBack(n: nat)
    ensures Value(Decimal(n)) == n
  {
    if n >= 10 {
      DecimalReadsBack(n / 10);
      assert Decimal(n)[..|Decimal(n)| - 1] == Decimal(n / 10);
    } else {
      assert Decimal(n)[..0] == [];
      assert Value(Decimal(n)[..0]) == 0;
    }
  }

  lemma {:induction false} DecimalLength(n: nat, d: nat)
    requires 0 < d
    ensures |Decimal(n)| <= d <==> n < Pow10(d)
  {
    if d == 1 {
      assert Pow10(1) == 10 * Pow10(0);
    } else if n >= 10 {
      DecimalLength(n / 10, d - 1);
      assert n / 10 < Pow10(d - 1) <==> n < 10 * Pow10(d - 1);
    } else {
      PowPositive(d - 1);
    }
  }

  lemma {:induction false} PowPositive(d: nat)
    ensures Pow10(d) >= 1
  {
    if d > 0 { PowPositive(d - 1); }
  }

  /** A row's place, with its id as text. */
  datatype Place = Place(at: nat, order: nat, id: string)

  predicate IsId(id: string) {
    |id| == 24 && forall i :: 0 <= i < |id| ==> IsHex(id[i])
  }

  function CursorOf(p: Place): string {
    Decimal(p.at) + "." + Decimal(p.order) + "." + p.id
  }

  /** The length of the run of digits a text starts with. */
  function Digits(s: string): (n: nat)
    ensures n <= |s| && forall i :: 0 <= i < n ==> IsDigit(s[i])
    ensures n < |s| ==> !IsDigit(s[n])
  {
    if s == [] || !IsDigit(s[0]) then 0 else 1 + Digits(s[1..])
  }

  /** One to twelve digits, a dot, one to fifteen digits, a dot, and an id; anything else is no cursor. */
  function ParseCursor(s: string): Option<Place> {
    var n := Digits(s);
    if n < 1 || n > 12 || n >= |s| || s[n] != '.' then None else
    var rest := s[n + 1..];
    var m := Digits(rest);
    if m < 1 || m > 15 || m >= |rest| || rest[m] != '.' || !IsId(rest[m + 1..]) then None
    else Some(Place(Value(s[..n]), Value(rest[..m]), rest[m + 1..]))
  }

  /** Digits, a dot and the rest split where they were joined. */
  lemma SplitsAtDot(ds: string, rest: string)
    requires forall i :: 0 <= i < |ds| ==> IsDigit(ds[i])
    ensures
      var s := ds + "." + rest;
      Digits(s) == |ds| < |s| && s[|ds|] == '.' && s[..|ds|] == ds && s[|ds| + 1..] == rest
  {
  }

  /** A cursor is read back as the row it names exactly when the row's numbers have few enough digits. */
  lemma CursorsReadBack(p: Place)
    requires IsId(p.id)
    ensures ParseCursor(CursorOf(p)) == Some(p) <==> p.at < Pow10(12) && p.order < Pow10(15)
  {
    var a, rest := Decimal(p.at), Decimal(p.order) + "." + p.id;
    assert CursorOf(p) == a + "." + rest;
    SplitsAtDot(a, rest);
    SplitsAtDot(Decimal(p.order), p.id);
    DecimalLength(p.at, 12);
    DecimalLength(p.order, 15);
    DecimalReadsBack(p.at);
    DecimalReadsBack(p.order);
  }

  predicate AllDigits(s: string) { forall i :: 0 <= i < |s| ==> '0' <= s[i] <= '9' }

  /** Twenty-four characters, each a digit or one of a to f. */
  predicate LooksLikeAnId(s: string) {
    |s| == 24 && forall i :: 0 <= i < 24 ==> '0' <= s[i] <= '9' || 'a' <= s[i] <= 'f'
  }

  /** Digits, digits and a rest, joined by dots, are a cursor exactly when there are few enough digits and the rest is an id. */
  lemma JoinedPartsParse(a: string, b: string, id: string)
    requires AllDigits(a) && AllDigits(b)
    ensures ParseCursor(a + "." + b + "." + id) ==
      if 1 <= |a| <= 12 && 1 <= |b| <= 15 && LooksLikeAnId(id) then Some(Place(Value(a), Value(b), id)) else None
  {
    var rest := b + "." + id;
    assert a + "." + b + "." + id == a + "." + rest;
    SplitsAtDot(a, rest);
    SplitsAtDot(b, id);
  }

  /** And nothing else is one. */
  lemma OnlyJoinedPartsParse(s: string)
    requires ParseCursor(s).Some?
    ensures exists a, b, id :: AllDigits(a) && AllDigits(b) && s == a + "." + b + "." + id
  {
    var n := Digits(s);
    var rest := s[n + 1..];
    var m := Digits(rest);
    var a, b, id := s[..n], rest[..m], rest[m + 1..];
    assert rest == b + "." + id;
    assert s == a + "." + rest;
    assert s == a + "." + b + "." + id;
  }
}
