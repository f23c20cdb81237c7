/**
  The estimate form of client/app.js: reading the bedroom and bathroom radio
  groups, validating the form in a fixed order, building the request payload,
  and turning the server's reply into the price or an error banner.
 */
module Client {
  import opened Common

  // ----- Radio groups (getBHKValue, getBathValue) -----

  /** One radio button: whether it is checked and the integer its value parses to. */
  datatype RadioOption = RadioOption(checked: bool, value: int)

  /** The value reported when no option of a group is checked. */
  const NoSelection: int := -1

  predicate NoneChecked(group: seq<RadioOption>)
  {
    forall i :: 0 <= i < |group| ==> !group[i].checked
  }

  /** `k` is the position of the lowest-index checked option. */
  predicate IsFirstChecked(group: seq<RadioOption>, k: int)
  {
    && 0 <= k < |group|
    && group[k].checked
    && forall j :: 0 <= j < k ==> !group[j].checked
  }

  /** The value of the first checked option, or `NoSelection`. */
  function SelectedValue(group: seq<RadioOption>): (v: int)
    ensures NoneChecked(group) ==> v == NoSelection
    ensures forall k :: IsFirstChecked(group, k) ==> v == group[k].value
    decreases |group|
  {
    if |group| == 0 then NoSelection
    else if group[0].checked then group[0].value
    else
      assert forall k :: IsFirstChecked(group, k) ==> IsFirstChecked(group[1..], k - 1);
      SelectedValue(group[1..])
  }

  /** Every group with a checked option has exactly one first checked option. */
  lemma {:induction false} FirstCheckedExists(group: seq<RadioOption>)
    requires !NoneChecked(group)
    ensures exists k :: IsFirstChecked(group, k)
    ensures forall k, k' :: IsFirstChecked(group, k) && IsFirstChecked(group, k') ==> k == k'
    decreases |group|
  {
    if group[0].checked {
      assert IsFirstChecked(group, 0);
    } else {
      FirstCheckedExists(group[1..]);
      var k :| IsFirstChecked(group[1..], k);
      assert IsFirstChecked(group, k + 1);
    }
  }

  /** The sentinel is ambiguous only through an option whose own value is -1:
      when no option carries -1, the scan reports -1 exactly when nothing is checked. */
  lemma SentinelMeansNothingChecked(group: seq<RadioOption>)
    requires forall i :: 0 <= i < |group| ==> group[i].value != NoSelection
    ensures SelectedValue(group) == NoSelection <==> NoneChecked(group)
  {
    if !NoneChecked(group) {
      FirstCheckedExists(group);
    }
  }

  /** The loop of `getBHKValue` and `getBathValue`: scan the options in order
      and return the first checked one's value, or -1 after the last. */
  method ScanRadioGroup(group: seq<RadioOption>) returns (v: int)
    ensures NoneChecked(group) ==> v == NoSelection
    ensures forall k :: IsFirstChecked(group, k) ==> v == group[k].value
    ensures v == SelectedValue(group)
  {
    var i := 0;
    while i < |group|
      invariant 0 <= i <= |group|
      invariant forall j :: 0 <= j < i ==> !group[j].checked
      invariant SelectedValue(group) == SelectedValue(group[i..])
    {
      if group[i].checked {
        return group[i].value;
      }
      assert group[i..][1..] == group[i + 1..];
      i := i + 1;
    }
    return NoSelection;
  }

  // ----- Validation (onClickedEstimatePrice) -----

  /** The area text box: empty, or holding the text of a number. `sqft` is
      what the text means as a number (the value `parseFloat` sends and the
      `> 10000` comparison sees); `intPart` is what `parseInt` reads from the
      same text, `None` standing for NaN. The two differ for texts without a
      digit before the point (".5" gives NaN) and for exponents ("1e-5" gives 1). */
  datatype AreaInput = Blank | Number(sqft: real, intPart: Option<int>)

  /** The text has a digit before any point and no exponent, so `parseInt`
      yields the number's integer part. */
  predicate DigitLed(area: AreaInput)
  {
    area.Number? && area.intPart == Some(TruncateTowardZero(area.sqft))
  }

  /** What the estimate action reads from the page. */
  datatype EstimateForm = EstimateForm(
    area: AreaInput,
    bedrooms: seq<RadioOption>,
    bathrooms: seq<RadioOption>,
    location: string)

  /** The body of the POST to /api/predict_home_price. */
  datatype Payload = Payload(totalSqft: real, bhk: int, bath: int, location: string)

  /** Either the first failed check's message or the request to issue. */
  datatype Outcome = Invalid(message: string) | Request(payload: Payload)

  /** The checks, named by what they reject. */
  datatype Rule = AreaNotPositive | AreaTooLarge | NoBedrooms | NoBathrooms | NoLocation

  /** The order in which the checks run. */
  const RuleOrder: seq<Rule> := [AreaNotPositive, AreaTooLarge, NoBedrooms, NoBathrooms, NoLocation]

  const MaxArea: real := 10000.0

  function RuleMessage(rule: Rule): string
  {
    match rule
    case AreaNotPositive => "\U{274C} Please enter a valid area in square feet (minimum 1)"
    case AreaTooLarge => "\U{274C} Area seems too large. Please check your input."
    case NoBedrooms => "\U{274C} Please select number of bedrooms"
    case NoBathrooms => "\U{274C} Please select number of bathrooms"
    case NoLocation => "\U{274C} Please select a location"
  }

  /** JavaScript's `parseInt` applied to a number's text: the integer part, truncated toward zero. */
  function TruncateTowardZero(x: real): (n: int)
    ensures x >= 0.0 ==> n as real <= x < n as real + 1.0
    ensures x < 0.0 ==> n as real - 1.0 < x <= n as real
  {
    if x >= 0.0 then x.Floor else -((-x).Floor)
  }

  predicate Violates(f: EstimateForm, rule: Rule)
  {
    match rule
    case AreaNotPositive => f.area.Blank? || (f.area.intPart.Some? && f.area.intPart.value <= 0)
    case AreaTooLarge => f.area.Number? && f.area.sqft > MaxArea
    case NoBedrooms => SelectedValue(f.bedrooms) == NoSelection
    case NoBathrooms => SelectedValue(f.bathrooms) == NoSelection
    case NoLocation => |f.location| == 0
  }

  /** `k` is the position in `RuleOrder` of the first check the form fails. */
  predicate IsFirstViolation(f: EstimateForm, k: int)
  {
    && 0 <= k < |RuleOrder|
    && Violates(f, RuleOrder[k])
    && forall j :: 0 <= j < k ==> !Violates(f, RuleOrder[j])
  }

  predicate PassesAllChecks(f: EstimateForm)
  {
    forall k :: 0 <= k < |RuleOrder| ==> !Violates(f, RuleOrder[k])
  }

  /** The validation cascade of `onClickedEstimatePrice`: stop at the first
      failing check with its message, otherwise build the payload. */
  function Validate(f: EstimateForm): (o: Outcome)
    ensures o.Request? <==> PassesAllChecks(f)
    ensures forall k :: IsFirstViolation(f, k) ==> o == Invalid(RuleMessage(RuleOrder[k]))
    ensures o.Request? ==> f.area.Number? && o.payload == Payload(f.area.sqft, SelectedValue(f.bedrooms), SelectedValue(f.bathrooms), f.location)
  {
    assert RuleOrder[0] == AreaNotPositive && RuleOrder[1] == AreaTooLarge && RuleOrder[2] == NoBedrooms;
    assert RuleOrder[3] == NoBathrooms && RuleOrder[4] == NoLocation;
    if f.area.Blank? || (f.area.intPart.Some? && f.area.intPart.value <= 0) then Invalid(RuleMessage(AreaNotPositive))
    else if f.area.sqft > MaxArea then Invalid(RuleMessage(AreaTooLarge))
    else if SelectedValue(f.bedrooms) == NoSelection then Invalid(RuleMessage(NoBedrooms))
    else if SelectedValue(f.bathrooms) == NoSelection then Invalid(RuleMessage(NoBathrooms))
    else if |f.location| == 0 then Invalid(RuleMessage(NoLocation))
    else Request(Payload(f.area.sqft, SelectedValue(f.bedrooms), SelectedValue(f.bathrooms), f.location))
  }

  /** Each check has its own message, so the banner names the failed check. */
  lemma RuleMessagesDistinct(r1: Rule, r2: Rule)
    ensures RuleMessage(r1) == RuleMessage(r2) <==> r1 == r2
  {
  }

  /** The whole acceptance condition: the area box holds a number of at most
      10000 whose `parseInt` reading is NaN or positive, both groups report a
      value other than -1, and a location is chosen. A NaN reading passes the
      first check, since `NaN <= 0` is false. */
  lemma ValidateAcceptsExactly(f: EstimateForm)
    ensures Validate(f).Request? <==>
              && f.area.Number? && f.area.sqft <= MaxArea
              && (f.area.intPart.None? || f.area.intPart.value > 0)
              && SelectedValue(f.bedrooms) != NoSelection
              && SelectedValue(f.bathrooms) != NoSelection
              && |f.location| > 0
  {
  }

  /** For a digit-led area the acceptance condition reads in plain numbers:
      the area is at least 1 and at most 10000. */
  lemma DigitLedAreaAcceptedIff(f: EstimateForm)
    requires DigitLed(f.area)
    ensures Validate(f).Request? <==>
              && 1.0 <= f.area.sqft <= MaxArea
              && SelectedValue(f.bedrooms) != NoSelection
              && SelectedValue(f.bathrooms) != NoSelection
              && |f.location| > 0
  {
  }

  /** Area boundaries. For digit-led text, areas below 1 (zero and negative
      ones included) get the "valid area" message whatever else the form
      holds, and 10000 passes both area checks. Anything above 10000 gets the
      "too large" message. Text that `parseInt` reads as NaN (".5", "-.5")
      passes the first check whatever its value, so below-1 areas get through. */
  lemma AreaBoundaries(f: EstimateForm)
    ensures DigitLed(f.area) && f.area.sqft < 1.0 ==> Validate(f) == Invalid(RuleMessage(AreaNotPositive))
    ensures DigitLed(f.area) && f.area.sqft == MaxArea ==> !Violates(f, AreaNotPositive) && !Violates(f, AreaTooLarge)
    ensures DigitLed(f.area) && f.area.sqft > MaxArea ==> Validate(f) == Invalid(RuleMessage(AreaTooLarge))
    ensures f.area.Number? && f.area.sqft > MaxArea && !Violates(f, AreaNotPositive) ==>
              Validate(f) == Invalid(RuleMessage(AreaTooLarge))
    ensures f.area.Number? && f.area.intPart.None? && f.area.sqft <= MaxArea ==>
              !Violates(f, AreaNotPositive) && !Violates(f, AreaTooLarge)
  {
  }

  // ----- Failed requests -----

  /** The four buckets the error callback sorts an HTTP status into. */
  datatype FailureKind = CannotConnect | EndpointMissing | ServerFault | Unclassified

  const FailurePrefix: string := "\U{274C} Failed to predict price. "

  function ClassifyStatus(status: int): (kind: FailureKind)
    ensures kind == CannotConnect <==> status == 0
    ensures kind == EndpointMissing <==> status == 404
    ensures kind == ServerFault <==> status == 500
    ensures kind == Unclassified <==> status !in {0, 404, 500}
  {
    if status == 0 then CannotConnect
    else if status == 404 then EndpointMissing
    else if status == 500 then ServerFault
    else Unclassified
  }

  function FailureDetail(kind: FailureKind): string
  {
    match kind
    case CannotConnect => "Unable to connect to server. Make sure it's running."
    case EndpointMissing => "API endpoint not found."
    case ServerFault => "Server error occurred."
    case Unclassified => "Please try again."
  }

  /** The banner text for a failed prediction request. */
  function FailureMessage(status: int): (m: string)
    ensures |FailurePrefix| < |m| && m[..|FailurePrefix|] == FailurePrefix
    ensures m[|FailurePrefix|..] == FailureDetail(ClassifyStatus(status))
  {
    FailurePrefix + FailureDetail(ClassifyStatus(status))
  }

  /** Statuses in different buckets give different banners, and statuses in
      the same bucket give the same one. */
  lemma FailureMessagesSeparateBuckets(s1: int, s2: int)
    ensures FailureMessage(s1) == FailureMessage(s2) <==> ClassifyStatus(s1) == ClassifyStatus(s2)
  {
  }

  // ----- Replies -----

  /** The parsed body of a successful reply: nothing usable, or an object whose
      `estimated_price` is either undefined or a number. */
  datatype ReplyBody = NoData | Data(estimatedPrice: Option<real>)

  /** How the prediction request ended. */
  datatype PredictReply = Succeeded(body: ReplyBody) | Failed(status: int)

  /** The property details printed beside the price. The area is the text box
      as it stands when the reply arrives, not the parsed number that was sent. */
  datatype Details = Details(area: AreaInput, bhk: int, bath: int, location: string)

  /** What the page shows when the estimate action finishes. */
  datatype Screen = PriceShown(price: real, details: Details) | ErrorShown(message: string)

  const UnexpectedReplyMessage: string := "\U{274C} Unexpected response from server"

  /** The success and error callbacks of the prediction request. The bedroom
      and bathroom counts were read at click time and travel in `p`; the area
      box and the location selector are read again from `now`, the form as it
      stands when the reply arrives. */
  function HandleReply(p: Payload, now: EstimateForm, reply: PredictReply): (s: Screen)
    ensures s.PriceShown? <==> reply.Succeeded? && reply.body.Data? && reply.body.estimatedPrice.Some?
    ensures s.PriceShown? ==> s.price == reply.body.estimatedPrice.value
    ensures s.PriceShown? ==> s.details == Details(now.area, p.bhk, p.bath, now.location)
    ensures reply.Succeeded? && !s.PriceShown? ==> s == ErrorShown(UnexpectedReplyMessage)
    ensures reply.Failed? ==> s == ErrorShown(FailureMessage(reply.status))
  {
    match reply
    case Succeeded(Data(Some(price))) => PriceShown(price, Details(now.area, p.bhk, p.bath, now.location))
    case Succeeded(_) => ErrorShown(UnexpectedReplyMessage)
    case Failed(status) => ErrorShown(FailureMessage(status))
  }

  /** The details printed describe the request that was priced only while the
      user leaves the area box and the location selector alone; a location
      picked during the request is printed beside the old location's price. */
  lemma DetailsMatchPayloadIffUnchanged(p: Payload, submitted: AreaInput, now: EstimateForm, price: real)
    ensures var s := HandleReply(p, now, Succeeded(Data(Some(price))));
            s.details == Details(submitted, p.bhk, p.bath, p.location)
            <==> now.area == submitted && now.location == p.location
  {
  }

  /** One press of the estimate button: the request sent, if any, and the final screen. */
  datatype Attempt = Attempt(sent: Option<Payload>, screen: Screen)

  /** The estimate workflow. `server` stands for the prediction endpoint and is
      consulted only when validation passes; `later` is the form when the reply
      arrives, from which the success callback re-reads area and location. */
  function EstimatePrice(f: EstimateForm, later: EstimateForm, server: Payload -> PredictReply): (a: Attempt)
    ensures a.sent.Some? <==> PassesAllChecks(f)
    ensures forall k :: IsFirstViolation(f, k) ==> a == Attempt(None, ErrorShown(RuleMessage(RuleOrder[k])))
    ensures a.sent.Some? ==>
              && f.area.Number?
              && a.sent.value == Payload(f.area.sqft, SelectedValue(f.bedrooms), SelectedValue(f.bathrooms), f.location)
    ensures a.screen.PriceShown? ==>
              && a.sent.Some?
              && a.screen.details.bhk == a.sent.value.bhk && a.screen.details.bath == a.sent.value.bath
              && a.screen.details.area == later.area && a.screen.details.location == later.location
    ensures a.sent.Some? ==> a.screen == HandleReply(a.sent.value, later, server(a.sent.value))
  {
    match Validate(f)
    case Invalid(message) => Attempt(None, ErrorShown(message))
    case Request(p) => Attempt(Some(p), HandleReply(p, later, server(p)))
  }

  /** When the area box and location selector are untouched while the request
      is in flight, the printed details are exactly what was submitted. */
  lemma UnchangedFormShowsSubmittedDetails(f: EstimateForm, later: EstimateForm, server: Payload -> PredictReply)
    requires later.area == f.area && later.location == f.location
    ensures var a := EstimatePrice(f, later, server);
            a.screen.PriceShown? ==>
              && a.screen.details == Details(f.area, SelectedValue(f.bedrooms), SelectedValue(f.bathrooms), f.location)
              && a.sent.value == Payload(f.area.sqft, SelectedValue(f.bedrooms), SelectedValue(f.bathrooms), f.location)
  {
  }
}
