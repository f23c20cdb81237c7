/**
  How the client's checks compare with the server's: the client lets through
  bedroom and bathroom counts the server refuses (any checked value other
  than -1, zero included), and the server has no upper bound on the area.
 */
module Agreement {
  import opened Common
  import Client
  import Server

  /** The form the server reads from a client payload, every field present. */
  function ServerFormOf(p: Client.Payload): (form: Server.PredictForm)
    ensures Server.WellFormed(form)
    ensures form.totalSqft == Server.Given(p.totalSqft) && form.location == Some(p.location)
    ensures form.bhk == Server.Given(p.bhk) && form.bath == Server.Given(p.bath)
  {
    Server.PredictForm(Server.Given(p.totalSqft), Some(p.location), Server.Given(p.bhk), Server.Given(p.bath))
  }

  /** True when the server answers "Invalid input parameters". */
  predicate ServerRejectsParameters(form: Server.PredictForm, estimate: (string, real, int, int) -> Server.Estimation)
  {
    Server.PredictHomePrice(form, estimate) == Server.Response(Server.ErrorJson(Server.InvalidParameters), 400, [])
  }

  /** A request the client sends passes the server's validation exactly when
      its area and both counts are positive. The client's count checks are
      weaker than the server's, and so is its area check for text that
      `parseInt` reads as NaN. */
  lemma ServerAcceptsClientRequestIff(f: Client.EstimateForm, estimate: (string, real, int, int) -> Server.Estimation)
    requires Client.Validate(f).Request?
    ensures var p := Client.Validate(f).payload;
            !ServerRejectsParameters(ServerFormOf(p), estimate) <==> p.totalSqft > 0.0 && p.bhk > 0 && p.bath > 0
  {
  }

  /** For digit-led area text the client's area check is at least as strict as
      the server's, so only the counts can make the server refuse. */
  lemma DigitLedRequestRejectedOnlyForCounts(f: Client.EstimateForm, estimate: (string, real, int, int) -> Server.Estimation)
    requires Client.Validate(f).Request? && Client.DigitLed(f.area)
    ensures var p := Client.Validate(f).payload;
            !ServerRejectsParameters(ServerFormOf(p), estimate) <==> p.bhk > 0 && p.bath > 0
  {
    Client.DigitLedAreaAcceptedIff(f);
  }

  /** The text "-.5" reads as NaN, passes both area checks, and is sent as
      -0.5, which the server refuses even with valid counts and location. */
  lemma NegativeFractionPassesClientOnly(estimate: (string, real, int, int) -> Server.Estimation)
    ensures var f := Client.EstimateForm(
              Client.Number(-0.5, None), [Client.RadioOption(true, 2)], [Client.RadioOption(true, 2)], "Whitefield");
            && Client.Validate(f) == Client.Request(Client.Payload(-0.5, 2, 2, "Whitefield"))
            && ServerRejectsParameters(ServerFormOf(Client.Validate(f).payload), estimate)
  {
  }

  /** A form with the zero-bedroom option checked is sent by the client and refused by the server. */
  lemma ZeroBedroomsPassClientOnly(estimate: (string, real, int, int) -> Server.Estimation)
    ensures var f := Client.EstimateForm(
              Client.Number(1200.0, Some(1200)), [Client.RadioOption(true, 0)], [Client.RadioOption(true, 2)], "Whitefield");
            && Client.Validate(f) == Client.Request(Client.Payload(1200.0, 0, 2, "Whitefield"))
            && ServerRejectsParameters(ServerFormOf(Client.Validate(f).payload), estimate)
  {
  }

  /** Areas above 10000 are refused by the client (by the area check, or by the
      first check when `parseInt` reads the text as 0 or less, as for "0.1e6"),
      while the server has no upper bound: any such area with positive counts
      and a location passes its check. */
  lemma LargeAreaPassesServerOnly(f: Client.EstimateForm, p: Client.Payload, estimate: (string, real, int, int) -> Server.Estimation)
    requires f.area.Number? && f.area.sqft > Client.MaxArea
    requires p.totalSqft == f.area.sqft && p.bhk > 0 && p.bath > 0 && p.location != ""
    ensures Client.Validate(f) in {Client.Invalid(Client.RuleMessage(Client.AreaNotPositive)), Client.Invalid(Client.RuleMessage(Client.AreaTooLarge))}
    ensures !Client.Violates(f, Client.AreaNotPositive) ==> Client.Validate(f) == Client.Invalid(Client.RuleMessage(Client.AreaTooLarge))
    ensures !ServerRejectsParameters(ServerFormOf(p), estimate)
  {
  }
}
