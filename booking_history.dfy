/**
 * The booking-history screen: the tab filter over the booking list, and
 * the label and colour shown for a booking's status.
 */
module BookingHistory {

  datatype Booking = Booking(
    id: string,
    bookingCode: string,
    date: string,
    time: string,
    from: string,
    to: string,
    vessel: string,
    passengers: nat,
    totalPrice: nat,
    status: string)

  datatype Tab = Tab(id: string, caption: string)

  const AllTab: string := "all"

  /** The bookings the screen lists (fixed data in this version of the app). */
  const BookingData: seq<Booking> := [
    Booking("1", "TMU-2024-001", "2024-01-15", "08:00", "Banjarmasin", "Pulau Laut",
            "KM Express Barito", 2, 90000, "completed"),
    Booking("2", "TMU-2024-002", "2024-01-20", "10:00", "Banjarmasin", "Kotabaru",
            "KM Dharma Ferry", 1, 65000, "active"),
    Booking("3", "TMU-2024-003", "2024-01-10", "14:00", "Banjarmasin", "Sampit",
            "KM Lambung Mangkurat", 3, 360000, "cancelled")
  ]

  const Tabs: seq<Tab> := [
    Tab("all", "Semua"), Tab("active", "Aktif"), Tab("completed", "Selesai"), Tab("cancelled", "Dibatalkan")
  ]

  /** `bookings.filter(booking => booking.status === status)`. */
  function FilterByStatus(bookings: seq<Booking>, status: string): (kept: seq<Booking>)
    ensures |kept| <= |bookings|
    ensures forall i :: 0 <= i < |kept| ==> kept[i].status == status
  {
    if bookings == [] then []
    else (if bookings[0].status == status then [bookings[0]] else []) + FilterByStatus(bookings[1..], status)
  }

  /** `filteredBookings`: every booking on the 'all' tab, those with the tab's status on any other. */
  function FilteredBookings(bookings: seq<Booking>, activeTab: string): (shown: seq<Booking>)
    ensures activeTab == AllTab ==> shown == bookings
    ensures activeTab != AllTab ==> forall i :: 0 <= i < |shown| ==> shown[i].status == activeTab
  {
    if activeTab == AllTab then bookings else FilterByStatus(bookings, activeTab)
  }

  /** `r` is `s` with some elements left out, the others in their original order. */
  ghost predicate IsSubsequence(r: seq<Booking>, s: seq<Booking>) {
    if r == [] then true
    else if s == [] then false
    else if r[0] == s[0] then IsSubsequence(r[1..], s[1..])
    else IsSubsequence(r, s[1..])
  }

  /**
   * Filtering keeps the order and drops exactly the bookings of another
   * status: the result is a subsequence holding every booking of the
   * status as many times as the list does, and no other.
   */
  lemma FilterKeepsExactlyMatching(bookings: seq<Booking>, status: string)
    ensures IsSubsequence(FilterByStatus(bookings, status), bookings)
    ensures forall b :: (multiset(FilterByStatus(bookings, status))[b] ==
                          if b.status == status then multiset(bookings)[b] else 0)
  {
    FilterIsSubsequence(bookings, status);
    FilterCounts(bookings, status);
  }

  lemma {:induction false} FilterIsSubsequence(bookings: seq<Booking>, status: string)
    ensures IsSubsequence(FilterByStatus(bookings, status), bookings)
  {
    if bookings != [] {
      FilterIsSubsequence(bookings[1..], status);
      var rest := FilterByStatus(bookings[1..], status);
      if bookings[0].status == status {
        assert ([bookings[0]] + rest)[1..] == rest;
      } else {
        assert FilterByStatus(bookings, status) == rest;
        assert rest != [] ==> rest[0] != bookings[0];
      }
    }
  }

  lemma {:induction false} FilterCounts(bookings: seq<Booking>, status: string)
    ensures forall b :: (multiset(FilterByStatus(bookings, status))[b] ==
                          if b.status == status then multiset(bookings)[b] else 0)
  {
    if bookings != [] {
      FilterCounts(bookings[1..], status);
      assert bookings == [bookings[0]] + bookings[1..];
      assert multiset(bookings) == multiset([bookings[0]]) + multiset(bookings[1..]);
    }
  }

  /** Whether the screen shows its empty-list message instead of the list. */
  predicate ShowsEmptyState(shown: seq<Booking>) {
    shown == []
  }

  /**
   * A tab other than 'all' shows the empty-list message exactly when no
   * booking has its status.
   */
  lemma EmptyTab(bookings: seq<Booking>, activeTab: string)
    requires activeTab != AllTab
    ensures ShowsEmptyState(FilteredBookings(bookings, activeTab)) <==>
      forall i :: 0 <= i < |bookings| ==> bookings[i].status != activeTab
  {
    FilterCounts(bookings, activeTab);
    var shown := FilteredBookings(bookings, activeTab);
    if shown == [] {
      forall i | 0 <= i < |bookings| ensures bookings[i].status != activeTab {
        assert bookings[i] in multiset(bookings);
      }
    } else {
      assert shown[0] in multiset(shown);
    }
  }

  /** On the app's own data, each status tab lists exactly one booking. */
  lemma EachStatusTabListsOne()
    ensures forall k :: 1 <= k < |Tabs| ==>
      |FilteredBookings(BookingData, Tabs[k].id)| == 1 && !ShowsEmptyState(FilteredBookings(BookingData, Tabs[k].id))
    ensures FilteredBookings(BookingData, Tabs[0].id) == BookingData
  {
  }

  /** `getStatusText`: the Indonesian label of a known status, any other status as it is. */
  function StatusText(status: string): (text: string)
    ensures status != "active" && status != "completed" && status != "cancelled" ==> text == status
  {
    match status
    case "active" => "Aktif"
    case "completed" => "Selesai"
    case "cancelled" => "Dibatalkan"
    case _ => status
  }

  /** The known statuses get the label of the tab that shows them. */
  lemma StatusTextIsTabLabel()
    ensures forall k :: 1 <= k < |Tabs| ==> StatusText(Tabs[k].id) == Tabs[k].caption
  {
  }

  /** The background and text classes of a status badge. */
  datatype StatusStyle = StatusStyle(bg: string, text: string)

  const DefaultStyle: StatusStyle := StatusStyle("bg-gray-100", "text-gray-700")

  /** `getStatusColor`. */
  function StatusColor(status: string): (style: StatusStyle)
    ensures status != "active" && status != "completed" && status != "cancelled" ==> style == DefaultStyle
  {
    match status
    case "active" => StatusStyle("bg-green-100", "text-green-700")
    case "completed" => StatusStyle("bg-blue-100", "text-blue-700")
    case "cancelled" => StatusStyle("bg-red-100", "text-red-700")
    case _ => DefaultStyle
  }

  /** The three known statuses get three different styles, none of them the gray default. */
  lemma StatusColorsDistinct(s: string, t: string)
    requires s in {"active", "completed", "cancelled"} && t in {"active", "completed", "cancelled"}
    ensures StatusColor(s) != DefaultStyle
    ensures StatusColor(s) == StatusColor(t) <==> s == t
  {
  }
}
