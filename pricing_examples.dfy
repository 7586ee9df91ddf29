/** The default discount rules of the catalog and worked prices for them. */
module PricingExamples {
  import opened Types
  import opened Pricing

  function Rule(id: string, name: string, kind: DiscountKind, value: int,
                minTotal: Option<int>, earlyBirdDays: Option<int>, serviceTypes: Option<seq<ServiceType>>): Discount
  {
    Discount(id, name, kind, value, DiscountCondition(minTotal, earlyBirdDays, None, serviceTypes), true)
  }

  const EarlyBird30 := Rule("early-bird-30", "早鳥優惠 30 天", Percentage, 10, None, Some(30), None)
  const EarlyBird60 := Rule("early-bird-60", "早鳥優惠 60 天", Percentage, 15, None, Some(60), None)
  const Combo := Rule("combo-discount", "拍照+錄影組合優惠", Percentage, 5, None, None, Some([Both]))
  const Over50k := Rule("over-50k", "滿 5 萬折 3000", Fixed, 3000, Some(50000), None, None)
  const Over100k := Rule("over-100k", "滿 10 萬折 8000", Fixed, 8000, Some(100000), None, None)

  /** The catalog's default rules, in catalog order. */
  const DefaultDiscounts := [EarlyBird30, EarlyBird60, Combo, Over50k, Over100k]

  /** A selection holding only a package of the given base price. */
  function PackageOnly(basePrice: int, st: ServiceType, eventDate: Option<string>): PriceInput {
    var pkg := Package("pkg", Event, st, "package", "", basePrice, [], true, 0);
    PriceInput(Some(pkg), None, None, [], st, eventDate)
  }

  /** The percentage candidates the default rules yield, spelled out rule by rule. */
  lemma DefaultPercentageCandidates(ctx: Context)
    ensures Candidates(DefaultDiscounts, Percentage, ctx)
      == (if Eligible(EarlyBird30, Percentage, ctx) then [Candidate(EarlyBird30, RoundPercent(ctx.subtotal, 10))] else [])
       + (if Eligible(EarlyBird60, Percentage, ctx) then [Candidate(EarlyBird60, RoundPercent(ctx.subtotal, 15))] else [])
       + (if Eligible(Combo, Percentage, ctx) then [Candidate(Combo, RoundPercent(ctx.subtotal, 5))] else [])
  {
    var ds := DefaultDiscounts;
    assert ds[..0] == [];
    assert ds[..1] == ds[..0] + [EarlyBird30];
    assert ds[..2] == ds[..1] + [EarlyBird60];
    assert ds[..3] == ds[..2] + [Combo];
    assert ds[..4] == ds[..3] + [Over50k];
    assert ds == ds[..4] + [Over100k];
    CandidatesSnoc(ds[..0], EarlyBird30, Percentage, ctx);
    CandidatesSnoc(ds[..1], EarlyBird60, Percentage, ctx);
    CandidatesSnoc(ds[..2], Combo, Percentage, ctx);
    CandidatesSnoc(ds[..3], Over50k, Percentage, ctx);
    CandidatesSnoc(ds[..4], Over100k, Percentage, ctx);
  }

  /** The fixed candidates the default rules yield, spelled out rule by rule. */
  lemma DefaultFixedCandidates(ctx: Context)
    ensures Candidates(DefaultDiscounts, Fixed, ctx)
      == (if Eligible(Over50k, Fixed, ctx) then [Candidate(Over50k, 3000)] else [])
       + (if Eligible(Over100k, Fixed, ctx) then [Candidate(Over100k, 8000)] else [])
  {
    var ds := DefaultDiscounts;
    assert ds[..0] == [];
    assert ds[..1] == ds[..0] + [EarlyBird30];
    assert ds[..2] == ds[..1] + [EarlyBird60];
    assert ds[..3] == ds[..2] + [Combo];
    assert ds[..4] == ds[..3] + [Over50k];
    assert ds == ds[..4] + [Over100k];
    CandidatesSnoc(ds[..0], EarlyBird30, Fixed, ctx);
    CandidatesSnoc(ds[..1], EarlyBird60, Fixed, ctx);
    CandidatesSnoc(ds[..2], Combo, Fixed, ctx);
    CandidatesSnoc(ds[..3], Over50k, Fixed, ctx);
    CandidatesSnoc(ds[..4], Over100k, Fixed, ctx);
  }

  /** A 77000 photo-and-video selection with no event date: the combo 5% (3850)
      and the over-50k fixed discount (3000) both apply, for 70150. */
  lemma ComboAndOver50k()
    ensures var r := Calculation(PackageOnly(77000, Both, None), DefaultDiscounts, 0);
      && r.subtotal == 77000
      && r.discounts == [AppliedDiscount("combo-discount", "拍照+錄影組合優惠", 3850),
                         AppliedDiscount("over-50k", "滿 5 萬折 3000", 3000)]
      && r.totalDiscount == 6850
      && r.grandTotal == 70150
  {
    var input := PackageOnly(77000, Both, None);
    var ctx := DiscountContext(input, 0);
    assert ctx == Context(77000, Both, Some("pkg"), 0);
    var p := Candidates(DefaultDiscounts, Percentage, ctx);
    var f := Candidates(DefaultDiscounts, Fixed, ctx);
    assert p == [Candidate(Combo, 3850)] by { DefaultPercentageCandidates(ctx); }
    assert f == [Candidate(Over50k, 3000)] by { DefaultFixedCandidates(ctx); }
    assert Best(p) == Some(Candidate(Combo, 3850)) by { BestSnoc([], Candidate(Combo, 3850)); }
    assert Best(f) == Some(Candidate(Over50k, 3000)) by { BestSnoc([], Candidate(Over50k, 3000)); }
    CalculationIs(input, DefaultDiscounts, 0, ctx, Best(p), Best(f));
  }

  /** A 15000 package with no discount rules at all is charged 15000. */
  lemma PackageWithoutDiscounts()
    ensures var r := Calculation(PackageOnly(15000, Photo, None), [], 0);
      r.subtotal == 15000 && r.discounts == [] && r.grandTotal == 15000
  {
    var input := PackageOnly(15000, Photo, None);
    var ctx := DiscountContext(input, 0);
    CalculationIs(input, [], 0, ctx, None, None);
  }

  /** The minimum-total threshold is inclusive: a 50000 photo package earns
      the over-50k discount and is charged 47000. */
  lemma Over50kReached()
    ensures var r := Calculation(PackageOnly(50000, Photo, None), DefaultDiscounts, 0);
      r.discounts == [AppliedDiscount("over-50k", "滿 5 萬折 3000", 3000)] && r.grandTotal == 47000
  {
    var input := PackageOnly(50000, Photo, None);
    var ctx := DiscountContext(input, 0);
    assert ctx == Context(50000, Photo, Some("pkg"), 0);
    var f := Candidates(DefaultDiscounts, Fixed, ctx);
    assert Candidates(DefaultDiscounts, Percentage, ctx) == [] by { DefaultPercentageCandidates(ctx); }
    assert f == [Candidate(Over50k, 3000)] by { DefaultFixedCandidates(ctx); }
    assert Best(f) == Some(Candidate(Over50k, 3000)) by { BestSnoc([], Candidate(Over50k, 3000)); }
    CalculationIs(input, DefaultDiscounts, 0, ctx, None, Best(f));
  }

  /** A 49999 photo package earns no discount. */
  lemma Over50kMissed()
    ensures var r := Calculation(PackageOnly(49999, Photo, None), DefaultDiscounts, 0);
      r.discounts == [] && r.grandTotal == 49999
  {
    var input := PackageOnly(49999, Photo, None);
    var ctx := DiscountContext(input, 0);
    assert ctx == Context(49999, Photo, Some("pkg"), 0);
    assert Candidates(DefaultDiscounts, Percentage, ctx) == [] by { DefaultPercentageCandidates(ctx); }
    assert Candidates(DefaultDiscounts, Fixed, ctx) == [] by { DefaultFixedCandidates(ctx); }
    CalculationIs(input, DefaultDiscounts, 0, ctx, None, None);
  }

  /** 60 days ahead of the event on a 40000 photo subtotal, both early-bird
      rules qualify, for 4000 and 6000, and the larger is the best. */
  lemma BothEarlyBirdsQualify(ctx: Context)
    requires ctx == Context(40000, Photo, Some("pkg"), 60)
    ensures Candidates(DefaultDiscounts, Percentage, ctx) == [Candidate(EarlyBird30, 4000), Candidate(EarlyBird60, 6000)]
    ensures Best(Candidates(DefaultDiscounts, Percentage, ctx)) == Some(Candidate(EarlyBird60, 6000))
    ensures Candidates(DefaultDiscounts, Fixed, ctx) == []
  {
    var c30 := Candidate(EarlyBird30, 4000);
    var c60 := Candidate(EarlyBird60, 6000);
    assert Eligible(EarlyBird30, Percentage, ctx) && RoundPercent(40000, 10) == 4000;
    assert Eligible(EarlyBird60, Percentage, ctx) && RoundPercent(40000, 15) == 6000;
    assert !Eligible(Combo, Percentage, ctx);
    assert !Eligible(Over50k, Fixed, ctx) && !Eligible(Over100k, Fixed, ctx);
    DefaultPercentageCandidates(ctx);
    DefaultFixedCandidates(ctx);
    assert [c30, c60] == [c30] + [c60];
    assert Best([c30]) == Some(c30) by { BestSnoc([], c30); }
    BestSnoc([c30], c60);
  }

  /** Both early-bird rules qualify 60 days ahead on a 40000 subtotal (4000 and
      6000); only the larger 15% one is applied. */
  lemma LargerPercentageWins()
    ensures var r := Calculation(PackageOnly(40000, Photo, Some("2026-12-14")), DefaultDiscounts, 60);
      r.discounts == [AppliedDiscount("early-bird-60", "早鳥優惠 60 天", 6000)] && r.grandTotal == 34000
  {
    var input := PackageOnly(40000, Photo, Some("2026-12-14"));
    var ctx := DiscountContext(input, 60);
    assert ctx == Context(40000, Photo, Some("pkg"), 60);
    BothEarlyBirdsQualify(ctx);
    CalculationIs(input, DefaultDiscounts, 60, ctx, Some(Candidate(EarlyBird60, 6000)), None);
  }

  /** The lead-time threshold is inclusive. 29 days before the event no
      default rule applies to a 40000 photo package. */
  lemma EarlyBirdTooLate()
    ensures Calculation(PackageOnly(40000, Photo, Some("2026-11-13")), DefaultDiscounts, 29).discounts == []
  {
    var late := PackageOnly(40000, Photo, Some("2026-11-13"));
    var ctx := DiscountContext(late, 29);
    assert ctx == Context(40000, Photo, Some("pkg"), 29);
    assert Candidates(DefaultDiscounts, Percentage, ctx) == [] by { DefaultPercentageCandidates(ctx); }
    assert Candidates(DefaultDiscounts, Fixed, ctx) == [] by { DefaultFixedCandidates(ctx); }
    CalculationIs(late, DefaultDiscounts, 29, ctx, None, None);
  }

  /** 30 days before the event the 30-day early-bird rule takes 10% off a 40000 photo package. */
  lemma EarlyBirdJustInTime()
    ensures Calculation(PackageOnly(40000, Photo, Some("2026-11-14")), DefaultDiscounts, 30).discounts
      == [AppliedDiscount("early-bird-30", "早鳥優惠 30 天", 4000)]
  {
    var early := PackageOnly(40000, Photo, Some("2026-11-14"));
    var ctx := DiscountContext(early, 30);
    assert ctx == Context(40000, Photo, Some("pkg"), 30);
    var p := Candidates(DefaultDiscounts, Percentage, ctx);
    assert p == [Candidate(EarlyBird30, 4000)] by { DefaultPercentageCandidates(ctx); }
    assert Candidates(DefaultDiscounts, Fixed, ctx) == [] by { DefaultFixedCandidates(ctx); }
    assert Best(p) == Some(Candidate(EarlyBird30, 4000)) by { BestSnoc([], Candidate(EarlyBird30, 4000)); }
    CalculationIs(early, DefaultDiscounts, 30, ctx, Best(p), None);
  }

  /** A 40000 photo package whose event date is absent or blank earns no
      default discount, 90 days ahead or not. */
  lemma NoDiscountAtLeadTimeZero(eventDate: Option<string>)
    requires eventDate == None || eventDate == Some("")
    ensures Calculation(PackageOnly(40000, Photo, eventDate), DefaultDiscounts, 90).discounts == []
  {
    var input := PackageOnly(40000, Photo, eventDate);
    var ctx := DiscountContext(input, 90);
    assert ctx == Context(40000, Photo, Some("pkg"), 0);
    assert Candidates(DefaultDiscounts, Percentage, ctx) == [] by { DefaultPercentageCandidates(ctx); }
    assert Candidates(DefaultDiscounts, Fixed, ctx) == [] by { DefaultFixedCandidates(ctx); }
    CalculationIs(input, DefaultDiscounts, 90, ctx, None, None);
  }

  /** Of two qualifying percentage rules with the same amount, the earlier one is applied. */
  lemma EarlierRuleWinsTie()
    ensures var first := Rule("first", "first", Percentage, 10, None, None, None);
      var second := Rule("second", "second", Percentage, 10, None, None, None);
      Calculation(PackageOnly(20000, Photo, None), [first, second], 0).discounts
        == [AppliedDiscount("first", "first", 2000)]
  {
    var first := Rule("first", "first", Percentage, 10, None, None, None);
    var second := Rule("second", "second", Percentage, 10, None, None, None);
    var input := PackageOnly(20000, Photo, None);
    var ctx := DiscountContext(input, 0);
    assert ctx == Context(20000, Photo, Some("pkg"), 0);
    var p := Candidates([first, second], Percentage, ctx);
    assert p == [Candidate(first, 2000)] + [Candidate(second, 2000)] && Candidates([first, second], Fixed, ctx) == []
    by {
      assert [first, second] == [] + [first] + [second];
      CandidatesSnoc([], first, Percentage, ctx);
      CandidatesSnoc([first], second, Percentage, ctx);
      CandidatesSnoc([], first, Fixed, ctx);
      CandidatesSnoc([first], second, Fixed, ctx);
    }
    assert Best(p) == Some(Candidate(first, 2000)) by {
      BestSnoc([], Candidate(first, 2000));
      BestSnoc([Candidate(first, 2000)], Candidate(second, 2000));
    }
    CalculationIs(input, [first, second], 0, ctx, Best(p), None);
  }
}
