/**
 * The owner dashboard's derived values: today's counters and income, the
 * list sorted newest first, the "new" highlight and the status buttons.
 * `today` and `now` are parameters (the source reads the clock).
 */
module OwnerPortal {
  import opened Types
  import opened Constants
  import App

  // ---------------------------------------------------------------- filters

  /** `bookings.filter(b => b.date === date)`, order kept. */
  function DatedOn(bookings: seq<Booking>, date: string): (r: seq<Booking>)
    ensures |r| <= |bookings|
    ensures forall b :: b in r <==> b in bookings && b.date == date
  {
    if bookings == [] then []
    else
      var init, last := bookings[..|bookings| - 1], bookings[|bookings| - 1];
      assert bookings == init + [last];
      var r := DatedOn(init, date);
      if last.date == date then r + [last] else r
  }

  /** `bookings.filter(b => b.status === status)`, order kept. */
  function HavingStatus(bookings: seq<Booking>, status: Status): (r: seq<Booking>)
    ensures |r| <= |bookings|
    ensures forall b :: b in r <==> b in bookings && b.status == status
  {
    if bookings == [] then []
    else
      var init, last := bookings[..|bookings| - 1], bookings[|bookings| - 1];
      assert bookings == init + [last];
      var r := HavingStatus(init, status);
      if last.status == status then r + [last] else r
  }

  /** The `reduce` over the completed bookings: the sum of their catalogue
      prices, an unknown service counting 0. */
  function Income(bookings: seq<Booking>): nat {
    if bookings == [] then 0
    else Income(bookings[..|bookings| - 1]) + PriceOf(bookings[|bookings| - 1].serviceId)
  }

  // ---------------------------------------------------------------- reference definitions

  /** Positions of bookings dated `date`, and also of status `status` when
      one is given. */
  function Positions(bookings: seq<Booking>, date: string, status: Option<Status>): set<nat> {
    set i: nat | i < |bookings| && bookings[i].date == date && (status.None? || bookings[i].status == status.value)
  }

  /** What one booking adds to the day's income. */
  function Earned(b: Booking, today: string): nat {
    if b.date == today && b.status == Completed then PriceOf(b.serviceId) else 0
  }

  /** The day's income summed over the whole list, without filtering. */
  function EarnedOver(bookings: seq<Booking>, today: string): nat {
    if bookings == [] then 0
    else EarnedOver(bookings[..|bookings| - 1], today) + Earned(bookings[|bookings| - 1], today)
  }

  // ---------------------------------------------------------------- stats

  datatype Stats = Stats(todayCount: nat, pendingCount: nat, completedCount: nat, totalIncome: nat)

  /** The `stats` memo. The counters count the positions holding bookings of
      `today` (of each status); the income is the price sum over today's
      completed bookings, at most the top price per completed booking. */
  function ComputeStats(bookings: seq<Booking>, today: string): (st: Stats)
    ensures st.todayCount == |Positions(bookings, today, None)|
    ensures st.pendingCount == |Positions(bookings, today, Some(Pending))|
    ensures st.completedCount == |Positions(bookings, today, Some(Completed))|
    ensures st.totalIncome == EarnedOver(bookings, today)
    ensures st.pendingCount + st.completedCount <= st.todayCount
    ensures st.totalIncome <= MaxPrice * st.completedCount
    ensures st.completedCount == 0 ==> st.totalIncome == 0
    ensures bookings == [] ==> st == Stats(0, 0, 0, 0)
  {
    var todays := DatedOn(bookings, today);
    var done := HavingStatus(todays, Completed);
    CountPositions(bookings, today);
    StatusPartition(todays);
    IncomeIsEarned(bookings, today);
    IncomeBound(done);
    Stats(|todays|, |HavingStatus(todays, Pending)|, |done|, Income(done))
  }

  /** Filtering counts positions: the length of each filtered list is the
      number of positions that qualify. */
  lemma CountPositions(bookings: seq<Booking>, date: string)
    ensures |DatedOn(bookings, date)| == |Positions(bookings, date, None)|
    ensures forall s :: |HavingStatus(DatedOn(bookings, date), s)| == |Positions(bookings, date, Some(s))|
  {
    CountDated(bookings, date);
    forall s ensures |HavingStatus(DatedOn(bookings, date), s)| == |Positions(bookings, date, Some(s))| {
      CountDatedWithStatus(bookings, date, s);
    }
  }

  lemma {:induction false} CountDated(bookings: seq<Booking>, date: string)
    ensures |DatedOn(bookings, date)| == |Positions(bookings, date, None)|
  {
    if bookings != [] {
      CountDated(bookings[..|bookings| - 1], date);
      PositionsOfLast(bookings, date, None);
    }
  }

  lemma {:induction false} CountDatedWithStatus(bookings: seq<Booking>, date: string, s: Status)
    ensures |HavingStatus(DatedOn(bookings, date), s)| == |Positions(bookings, date, Some(s))|
  {
    if bookings != [] {
      var init, last := bookings[..|bookings| - 1], bookings[|bookings| - 1];
      CountDatedWithStatus(init, date, s);
      PositionsOfLast(bookings, date, Some(s));
      if last.date == date {
        HavingStatusAppend(DatedOn(init, date), last, s);
      }
    }
  }

  /** The qualifying positions of a list are those of all but its last
      booking, plus the last position when that booking qualifies. */
  lemma PositionsOfLast(bookings: seq<Booking>, date: string, status: Option<Status>)
    requires bookings != []
    ensures var n := |bookings| - 1;
      && n !in Positions(bookings[..n], date, status)
      && Positions(bookings, date, status) == Positions(bookings[..n], date, status) +
           (if bookings[n].date == date && (status.None? || bookings[n].status == status.value) then {n} else {})
  {
    var n := |bookings| - 1;
    assert forall i :: 0 <= i < n ==> bookings[i] == bookings[..n][i];
  }

  lemma HavingStatusAppend(bookings: seq<Booking>, b: Booking, s: Status)
    ensures HavingStatus(bookings + [b], s) == HavingStatus(bookings, s) + (if b.status == s then [b] else [])
  {
    assert (bookings + [b])[..|bookings|] == bookings;
  }

  /** Every booking of a list is pending, completed or cancelled. */
  lemma {:induction false} StatusPartition(bookings: seq<Booking>)
    ensures |HavingStatus(bookings, Pending)| + |HavingStatus(bookings, Completed)|
          + |HavingStatus(bookings, Cancelled)| == |bookings|
  {
    if bookings != [] {
      StatusPartition(bookings[..|bookings| - 1]);
    }
  }

  /** Summing prices over today's completed bookings equals summing what
      every booking earns today. */
  lemma {:induction false} IncomeIsEarned(bookings: seq<Booking>, today: string)
    ensures Income(HavingStatus(DatedOn(bookings, today), Completed)) == EarnedOver(bookings, today)
  {
    if bookings != [] {
      var init, last := bookings[..|bookings| - 1], bookings[|bookings| - 1];
      IncomeIsEarned(init, today);
      var d := DatedOn(init, today);
      if last.date == today {
        HavingStatusAppend(d, last, Completed);
        var c := HavingStatus(d, Completed);
        assert (c + [last])[..|c|] == c;
      }
    }
  }

  /** No booking adds more than the top catalogue price. */
  lemma {:induction false} IncomeBound(bookings: seq<Booking>)
    ensures Income(bookings) <= MaxPrice * |bookings|
  {
    if bookings != [] {
      IncomeBound(bookings[..|bookings| - 1]);
    }
  }

  /** A day whose only booking is a completed basic haircut: one booking
      today, none pending, one completed, income 100000. */
  lemma OneHaircutDay(b: Booking, today: string)
    requires b.date == today && b.status == Completed && b.serviceId == "s1"
    ensures ComputeStats([b], today) == Stats(1, 0, 1, 100000)
  {
    assert Positions([b], today, None) == {0};
    assert Positions([b], today, Some(Pending)) == {};
    assert Positions([b], today, Some(Completed)) == {0};
    assert [b][..0] == [];
    PriceOfHaircut();
    assert EarnedOver([b], today) == 100000;
    var st := ComputeStats([b], today);
    assert |{0}| == 1;
    assert st.todayCount == 1 && st.pendingCount == 0 && st.completedCount == 1;
  }

  // ---------------------------------------------------------------- sorting

  /** Non-increasing in `createdAt`: newest first. */
  predicate NewestFirst(s: seq<Booking>) {
    forall i, j :: 0 <= i < j < |s| ==> s[i].createdAt >= s[j].createdAt
  }

  /** Where `b`, originally at position `ob`, belongs before `c`, originally at `oc`. */
  predicate Precedes(b: Booking, ob: nat, c: Booking, oc: nat) {
    b.createdAt > c.createdAt || (b.createdAt == c.createdAt && ob < oc)
  }

  /** `origin` is a one-to-one map of positions: `sorted[k]` is
      `original[origin[k]]`. */
  ghost predicate Tracks(sorted: seq<Booking>, original: seq<Booking>, origin: seq<nat>) {
    && |origin| == |sorted| == |original|
    && (forall k :: 0 <= k < |origin| ==> origin[k] < |original| && sorted[k] == original[origin[k]])
    && (forall k, l :: 0 <= k < l < |origin| ==> origin[k] != origin[l])
  }

  /** `sorted` is `original` rearranged along `origin` with bookings of equal
      `createdAt` left in their original order: a stable sort. */
  ghost predicate StablyArranged(original: seq<Booking>, sorted: seq<Booking>, origin: seq<nat>) {
    && Tracks(sorted, original, origin)
    && (forall k, l :: 0 <= k < l < |origin| && sorted[k].createdAt == sorted[l].createdAt ==> origin[k] < origin[l])
  }

  /** The `sortedBookings` memo: `[...bookings].sort((a, b) => b.createdAt - a.createdAt)`.
      The copy is sorted, not the input; Array.prototype.sort is stable. */
  method SortedBookings(bookings: seq<Booking>) returns (sorted: seq<Booking>)
    ensures NewestFirst(sorted)
    ensures multiset(sorted) == multiset(bookings)
    ensures exists origin :: StablyArranged(bookings, sorted, origin)
  {
    var a := new Booking[|bookings|](k requires 0 <= k < |bookings| => bookings[k]);
    assert a[..] == bookings;
    ghost var origin := SortNewestFirst(a);
    sorted := a[..];
  }

  /** Sorts the array in place, newest first and stably (insertion sort). */
  method SortNewestFirst(a: array<Booking>) returns (ghost origin: seq<nat>)
    modifies a
    ensures NewestFirst(a[..])
    ensures multiset(a[..]) == multiset(old(a[..]))
    ensures StablyArranged(old(a[..]), a[..], origin)
  {
    ghost var original := a[..];
    origin := seq(a.Length, k => k);
    var i := 0;
    while i < a.Length
      invariant 0 <= i <= a.Length
      invariant Tracks(a[..], original, origin)
      invariant forall k :: i <= k < a.Length ==> origin[k] == k
      invariant forall k :: 0 <= k < i ==> origin[k] < i
      invariant forall k, l :: 0 <= k < l < i ==> Precedes(a[k], origin[k], a[l], origin[l])
      invariant multiset(a[..]) == multiset(original)
    {
      origin := InsertNewest(a, i, original, origin);
      i := i + 1;
    }
  }

  /** Moves `a[i]` down past the older bookings before it, so that the
      first `i + 1` positions are in order. */
  method InsertNewest(a: array<Booking>, i: nat, ghost original: seq<Booking>, ghost origin: seq<nat>)
    returns (ghost origin': seq<nat>)
    requires i < a.Length
    requires Tracks(a[..], original, origin)
    requires forall k :: i <= k < a.Length ==> origin[k] == k
    requires forall k :: 0 <= k < i ==> origin[k] < i
    requires forall k, l :: 0 <= k < l < i ==> Precedes(a[k], origin[k], a[l], origin[l])
    modifies a
    ensures Tracks(a[..], original, origin')
    ensures forall k :: i < k < a.Length ==> origin'[k] == k
    ensures forall k :: 0 <= k <= i ==> origin'[k] <= i
    ensures forall k, l :: 0 <= k < l <= i ==> Precedes(a[k], origin'[k], a[l], origin'[l])
    ensures multiset(a[..]) == multiset(old(a[..]))
  {
    origin' := origin;
    var j := i;
    ghost var start, cur := a[..], a[..];
    InsertionStart(cur, origin, original, i);
    while j > 0 && a[j - 1].createdAt < a[j].createdAt
      invariant 0 <= j <= i
      invariant a[..] == cur
      invariant InsertState(cur, origin', original, start, i, j)
    {
      a[j - 1], a[j] := a[j], a[j - 1];
      SwapStep(cur, origin', original, start, i, j);
      cur, origin' := Swapped(cur, j), Swapped(origin', j);
      j := j - 1;
    }
    InsertionDone(cur, origin', original, start, i, j);
  }

  /** Exchanges positions `j - 1` and `j`. */
  function Swapped<T>(s: seq<T>, j: nat): (r: seq<T>)
    requires 0 < j < |s|
    ensures |r| == |s| && r[j - 1] == s[j] && r[j] == s[j - 1]
    ensures forall k :: 0 <= k < |s| && k != j - 1 && k != j ==> r[k] == s[k]
  {
    s[j - 1 := s[j]][j := s[j - 1]]
  }

  /** The order part of insertion step `i` while the inserted booking, which
      came from position `i`, sits at `j`: the other first `i + 1` positions
      are in order, and those after `j` are strictly older than it. */
  ghost predicate Inserting(s: seq<Booking>, o: seq<nat>, i: nat, j: nat) {
    && j <= i < |s| == |o|
    && o[j] == i
    && (forall k :: 0 <= k <= i && k != j ==> o[k] < i)
    && (forall k, l :: 0 <= k < l <= i && k != j && l != j ==> Precedes(s[k], o[k], s[l], o[l]))
    && (forall l :: j < l <= i ==> s[j].createdAt > s[l].createdAt)
  }

  /** The whole state of insertion step `i`: the order part, the position
      map, the untouched tail and the contents of the array at the start. */
  ghost predicate InsertState(s: seq<Booking>, o: seq<nat>, original: seq<Booking>, start: seq<Booking>, i: nat, j: nat) {
    && Tracks(s, original, o)
    && (forall k :: i < k < |s| ==> o[k] == k)
    && Inserting(s, o, i, j)
    && multiset(s) == multiset(start)
  }

  /** Before the first exchange the inserted booking is where it came from. */
  lemma InsertionStart(s: seq<Booking>, o: seq<nat>, original: seq<Booking>, i: nat)
    requires i < |s| && Tracks(s, original, o)
    requires forall k :: i <= k < |s| ==> o[k] == k
    requires forall k :: 0 <= k < i ==> o[k] < i
    requires forall k, l :: 0 <= k < l < i ==> Precedes(s[k], o[k], s[l], o[l])
    ensures InsertState(s, o, original, s, i, i)
  {
  }

  /** Exchanging two neighbours keeps the position map and the contents. */
  lemma SwapTracks(s: seq<Booking>, o: seq<nat>, original: seq<Booking>, j: nat)
    requires 0 < j < |s| && Tracks(s, original, o)
    ensures Tracks(Swapped(s, j), original, Swapped(o, j))
    ensures multiset(Swapped(s, j)) == multiset(s)
  {
    var o' := Swapped(o, j);
    forall k, l | 0 <= k < l < |o'| ensures o'[k] != o'[l] {
      var k0 := if k == j then j - 1 else if k == j - 1 then j else k;
      var l0 := if l == j then j - 1 else if l == j - 1 then j else l;
      assert o'[k] == o[k0] && o'[l] == o[l0];
    }
    assert Swapped(s, j) == s[j - 1 := s[j]][j := s[j - 1]];
  }

  /** Exchanging the inserted booking with an older predecessor keeps the
      order part, one position further down. */
  lemma SwapInserting(s: seq<Booking>, o: seq<nat>, i: nat, j: nat)
    requires 0 < j && Inserting(s, o, i, j)
    requires s[j - 1].createdAt < s[j].createdAt
    ensures Inserting(Swapped(s, j), Swapped(o, j), i, j - 1)
  {
    var s', o' := Swapped(s, j), Swapped(o, j);
    forall k, l | 0 <= k < l <= i && k != j - 1 && l != j - 1
      ensures Precedes(s'[k], o'[k], s'[l], o'[l])
    {
      var k0 := if k == j then j - 1 else k;
      var l0 := if l == j then j - 1 else l;
      assert s'[k] == s[k0] && o'[k] == o[k0] && s'[l] == s[l0] && o'[l] == o[l0];
    }
  }

  /** One exchange keeps the whole insertion state. */
  lemma SwapStep(s: seq<Booking>, o: seq<nat>, original: seq<Booking>, start: seq<Booking>, i: nat, j: nat)
    requires 0 < j && InsertState(s, o, original, start, i, j)
    requires s[j - 1].createdAt < s[j].createdAt
    ensures InsertState(Swapped(s, j), Swapped(o, j), original, start, i, j - 1)
  {
    SwapTracks(s, o, original, j);
    SwapInserting(s, o, i, j);
  }

  /** When the inserted booking stops (at the front, or behind one at least
      as new), the first `i + 1` positions are in order. */
  lemma InsertionDone(s: seq<Booking>, o: seq<nat>, original: seq<Booking>, start: seq<Booking>, i: nat, j: nat)
    requires InsertState(s, o, original, start, i, j)
    requires j == 0 || s[j - 1].createdAt >= s[j].createdAt
    ensures Tracks(s, original, o)
    ensures forall k :: i < k < |s| ==> o[k] == k
    ensures forall k :: 0 <= k <= i ==> o[k] <= i
    ensures forall k, l :: 0 <= k < l <= i ==> Precedes(s[k], o[k], s[l], o[l])
    ensures multiset(s) == multiset(start)
  {
    forall k | 0 <= k < j ensures Precedes(s[k], o[k], s[j], o[j]) {
      if k < j - 1 {
        assert Precedes(s[k], o[k], s[j - 1], o[j - 1]);
      }
    }
  }

  // ---------------------------------------------------------------- row rules

  /** The yellow "new" highlight: made less than a minute before `now`. */
  predicate IsNew(b: Booking, now: int) {
    now - b.createdAt < 60000
  }

  /** A booking stays new for exactly one minute after it was made, and
      once it is no longer new it never is again. */
  lemma NewForOneMinute(b: Booking, now: int, later: int)
    requires now <= later
    ensures IsNew(b, now) <==> now < b.createdAt + 60000
    ensures IsNew(b, later) ==> IsNew(b, now)
  {
  }

  /** The status buttons shown on a row: complete and cancel while the
      booking is pending, none once it is completed or cancelled. */
  function ActionsFor(b: Booking): (actions: seq<Status>)
    ensures actions != [] <==> b.status == Pending
    ensures b.status == Pending ==> actions == [Completed, Cancelled]
    ensures forall s :: s in actions ==> s != Pending
  {
    if b.status == Pending then [Completed, Cancelled] else []
  }

  /** When ids are unique, pressing a button on a row changes only that
      booking, from pending to the button's status; every completed or
      cancelled booking stays as it was. */
  lemma OwnerActionOneWay(bookings: seq<Booking>, b: Booking, target: Status)
    requires forall i, j :: 0 <= i < j < |bookings| ==> bookings[i].id != bookings[j].id
    requires b in bookings && target in ActionsFor(b)
    ensures var r := App.WithStatus(bookings, b.id, target);
      forall i :: 0 <= i < |bookings| ==>
        r[i] == bookings[i] || (bookings[i] == b && b.status == Pending && r[i] == b.(status := target))
  {
    var r := App.WithStatus(bookings, b.id, target);
    var j :| 0 <= j < |bookings| && bookings[j] == b;
    forall i | 0 <= i < |bookings| && bookings[i].id == b.id ensures bookings[i] == b {
      assert i == j;
    }
  }
}
