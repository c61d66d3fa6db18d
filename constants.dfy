/** The fixed catalogue of services and the bookable time slots. */
module Constants {
  import opened Types
  import opened JsText

  const Services: seq<Service> := [
    Service("s1", "Cắt Tóc Cơ Bản", 100000, "30 phút",
            "Cắt và tỉa form tóc chuẩn phong cách."),
    Service("s2", "Gói Cắt & Gội Massage", 180000, "60 phút",
            "Bao gồm cắt tóc, gội đầu và massage mặt thư giãn."),
    Service("s3", "Combo Đặc Biệt (V.I.P)", 350000, "90 phút",
            "Full combo: Cắt, Gội, Uốn/Nhuộm nhẹ và Waxing."),
    Service("s4", "Tỉa Râu & Chăm Sóc Da Mặt", 120000, "40 phút",
            "Dành riêng cho quý ông yêu thích sự chỉn chu.")
  ]

  /** The highest catalogue price. */
  const MaxPrice: nat := 350000

  const TimeSlots: seq<string> := [
    "08:00", "09:00", "10:00", "11:00", "13:00", "14:00",
    "15:00", "16:00", "17:00", "18:00", "19:00", "20:00"
  ]

  // ---------------------------------------------------------------- lookup

  /** `Array.prototype.find` by id: the first entry with that id, if any. */
  function FindIn(ss: seq<Service>, id: string): (r: Option<Service>)
    ensures r.Some? ==> r.value in ss && r.value.id == id
    ensures r.Some? ==> forall k :: 0 <= k < |ss| && ss[k].id == id ==> ss[k] == r.value || exists j :: 0 <= j < k && ss[j] == r.value
    ensures r.None? <==> forall k :: 0 <= k < |ss| ==> ss[k].id != id
  {
    if ss == [] then None
    else if ss[0].id == id then Some(ss[0])
    else
      var r := FindIn(ss[1..], id);
      assert forall k :: 1 <= k < |ss| ==> ss[k] == ss[1..][k - 1];
      r
  }

  /** `SERVICES.find(srv => srv.id === id)`. */
  function FindService(id: string): (r: Option<Service>)
    ensures r.Some? ==> r.value in Services && r.value.id == id
    ensures r.None? <==> forall s :: s in Services ==> s.id != id
  {
    FindIn(Services, id)
  }

  /** `s?.price || 0`: the catalogue price of the service with this id, and 0
      for an id the catalogue does not hold. */
  function PriceOf(serviceId: string): (p: nat)
    ensures p <= MaxPrice
    ensures p > 0 <==> exists s :: s in Services && s.id == serviceId
  {
    PricesInRange();
    match FindService(serviceId)
    case Some(s) => s.price
    case None => 0
  }

  // ---------------------------------------------------------------- catalogue facts

  /** No two catalogue entries share an id. */
  lemma ServiceIdsDistinct()
    ensures forall i, j :: 0 <= i < j < |Services| ==> Services[i].id != Services[j].id
  {
  }

  /** Every price is positive and at most MaxPrice, which one entry costs. */
  lemma PricesInRange()
    ensures forall s :: s in Services ==> 0 < s.price <= MaxPrice
    ensures exists s :: s in Services && s.price == MaxPrice
  {
    assert Services[2].price == MaxPrice;
  }

  /** Looking up a catalogue entry's id finds that entry. */
  lemma FindServiceOfEntry(s: Service)
    requires s in Services
    ensures FindService(s.id) == Some(s)
  {
    ServiceIdsDistinct();
  }

  /** The basic haircut, s1, costs 100000. */
  lemma PriceOfHaircut()
    ensures PriceOf("s1") == 100000
  {
    FindServiceOfEntry(Services[0]);
  }

  // ---------------------------------------------------------------- time slots

  /** An `HH:MM` clock string with minutes below 60. */
  predicate IsClockTime(s: string) {
    && |s| == 5
    && IsDigit(s[0]) && IsDigit(s[1]) && s[2] == ':'
    && '0' <= s[3] <= '5' && IsDigit(s[4])
  }

  /** Minutes since midnight of an `HH:MM` string. */
  function Minutes(s: string): nat
    requires IsClockTime(s)
  {
    NumberValue(s[..2]) * 60 + NumberValue(s[3..])
  }

  lemma TwoDigitValue(x: string)
    requires |x| == 2 && AllDigits(x)
    ensures NumberValue(x) == DigitValue(x[0]) * 10 + DigitValue(x[1])
  {
    assert Pow10(1) == 10 && Pow10(0) == 1;
    assert x[1..][1..] == [];
  }

  /** The minutes of an `HH:MM` string, digit by digit. */
  lemma MinutesByDigits(s: string)
    requires IsClockTime(s)
    ensures NumberValue(s[3..]) < 60
    ensures Minutes(s) == (DigitValue(s[0]) * 10 + DigitValue(s[1])) * 60 + DigitValue(s[3]) * 10 + DigitValue(s[4])
  {
    TwoDigitValue(s[..2]);
    TwoDigitValue(s[3..]);
  }

  /** For `HH:MM` strings, JavaScript string order is the order of the
      clock times they name. */
  lemma ClockOrder(a: string, b: string)
    requires IsClockTime(a) && IsClockTime(b)
    ensures StrLess(a, b) <==> Minutes(a) < Minutes(b)
  {
    assert a == a[..2] + a[2..] && b == b[..2] + b[2..];
    StrLessConcat(a[..2], a[2..], b[..2], b[2..]);
    assert a[2..] == [':'] + a[3..] && b[2..] == [':'] + b[3..];
    StrLessConcat([':'], a[3..], [':'], b[3..]);
    assert !StrLess([':'], [':']);
    DigitStringOrder(a[..2], b[..2]);
    DigitStringOrder(a[3..], b[3..]);
    StrLessTrichotomy(a[..2], b[..2]);
    DigitStringOrder(b[..2], a[..2]);
    MinutesByDigits(a);
    MinutesByDigits(b);
  }

  /** Slot i is the clock time (8 + i):00, skipping 12:00. */
  lemma SlotTime(i: nat)
    requires i < |TimeSlots|
    ensures IsClockTime(TimeSlots[i])
    ensures Minutes(TimeSlots[i]) == 60 * (8 + i + if i < 4 then 0 else 1)
  {
    var t := TimeSlots[i];
    assert t[2] == ':' && t[3] == '0' && t[4] == '0';
    if i < 2 {
      assert t[0] == '0' && t[1] == ['8', '9'][i];
    } else if i < 4 {
      assert t[0] == '1' && t[1] == ['0', '1'][i - 2];
    } else if i < 11 {
      assert t[0] == '1' && t[1] == ['3', '4', '5', '6', '7', '8', '9'][i - 4];
    } else {
      assert t[0] == '2' && t[1] == '0';
    }
    MinutesByDigits(t);
  }

  /** The slots are twelve `HH:MM` strings, strictly increasing in the
      string order the select box shows them in, hence pairwise distinct. */
  lemma TimeSlotsOrdered()
    ensures |TimeSlots| == 12
    ensures forall i :: 0 <= i < |TimeSlots| ==> IsClockTime(TimeSlots[i])
    ensures forall i, j :: 0 <= i < j < |TimeSlots| ==> StrLess(TimeSlots[i], TimeSlots[j])
    ensures forall i, j :: 0 <= i < j < |TimeSlots| ==> TimeSlots[i] != TimeSlots[j]
  {
    forall i | 0 <= i < |TimeSlots| ensures IsClockTime(TimeSlots[i]) {
      SlotTime(i);
    }
    forall i, j | 0 <= i < j < |TimeSlots| ensures StrLess(TimeSlots[i], TimeSlots[j]) {
      SlotTime(i);
      SlotTime(j);
      ClockOrder(TimeSlots[i], TimeSlots[j]);
    }
  }
}
