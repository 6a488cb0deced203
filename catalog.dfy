/** The static product catalog behind `GetProductNutri` and the grade colours of
    `GetNutriColor` (Scripts/SceneOrganizer.cs). */
module Catalog {
  import opened Common
  import opened Records
  import opened Numerals

  /** C#'s `(int)` cast of a double: truncation toward zero. */
  function Truncate(x: real): (n: int)
    ensures x >= 0.0 ==> n as real <= x < n as real + 1.0
    ensures x < 0.0 ==> n as real - 1.0 < x <= n as real
  {
    if x >= 0.0 then x.Floor else -((-x).Floor)
  }

  predicate IsGrade(s: string) { s == "A" || s == "B" || s == "C" || s == "D" || s == "E" }

  /** One fully populated catalog case, fields in the order the source assigns them. */
  function Entry(id: string, name: string, gtin: string, nutriScore: int, nutriLabel: string,
                 calories: string, caloriesColor: string, sugar: string, sugarColor: string,
                 fat: string, fatColor: string, protein: string, proteinColor: string,
                 fiber: string, fiberColor: string): ProductDefinition
  {
    ProductDefinition(Some(id), Some(gtin), Some(name), nutriScore, Some(nutriLabel),
                      Some(calories), Some(caloriesColor), Some(sugar), Some(sugarColor),
                      Some(fat), Some(fatColor), Some(protein), Some(proteinColor),
                      Some(fiber), Some(fiberColor))
  }

  /** The record each case of the `switch` fills in, in source order. */
  const Product1 := Entry("1", "mnms_gelb__45__40111445", "40111445", 14, "D", "230.0", "B", "24.1", "C", "4.6", "C", "4.4", "B", "0.0", "C")
  const Product2 := Entry("2", "ragusa___50__76401121", "76401121", 20, "E", "576.0", "D", "49.0", "E", "15.0", "E", "7.0", "A", "3.0", "A")
  const Product3 := Entry("3", "torino___46__76415272", "76415272", 21, "E", "571.0", "D", "47.0", "E", "20.0", "E", "8.0", "A", "2.0", "B")
  const Product4 := Entry("4", "maltesers_teasers__35__5000159462129", "5000159462129", 2, "B", "186.0", "C", "18.5", "C", "6.3", "D", "2.6", "B", "0", "C")
  const Product5 := Entry("5", "kagi___50__7610046000259", "7610046000259", 19, "E", "559.0", "D", "38.0", "E", "25.0", "E", "6.4", "A", "3.1", "A")
  const Product6 := Entry("6", "twix___50__5000159459228", "5000159459228", 3, "C", "124.0", "A", "12.2", "B", "3.5", "B", "1.1", "C", "0.0", "C")
  const Product8 := Entry("8", "zweifel_paprika__90__7610095013002", "7610095013002", 5, "C", "544.0", "D", "5.0", "A", "2.0", "A", "6.0", "A", "5.0", "A")
  const Product9 := Entry("9", "toffifee___33__4014400924275", "4014400924275", 0, "B", "522.0", "D", "48.9", "E", "12.7", "E", "6.0", "A", "0", "C")
  const Product11 := Entry("11", "balisto_muesli__37g__5000159418546", "5000159418546", 0, "B", "93.0", "B", "8.1", "B", "2.0", "B", "1.1", "C", "0", "C")
  const Product12 := Entry("12", "knoppers_riegel____4035800488808", "4035800488808", 19, "E", "535.0", "D", "38.8", "E", "14.4", "E", "8.4", "A", "0.0", "C")
  const Product13 := Entry("13", "bueno___43__4008400320328", "4008400320328", 12, "D", "122.0", "A", "41.2", "E", "17.3", "E", "8.6", "A", "0.0", "C")
  const Product14 := Entry("14", "darwida_sandwich____7610032065170", "7610032065170", 6, "C", "483.0", "D", "3.0", "B", "6.0", "D", "10.0", "A", "5.0", "A")
  const Product15 := Entry("15", "snickers___50__5000159461122", "5000159461122", 6, "C", "241.0", "B", "26.0", "C", "4.0", "B", "4.3", "B", "0.0", "C")
  const Product16 := Entry("16", "valser_classic__50__76404160", "76404160", -15, "A", "0.0", "B", "0.0", "A", "0.0", "A", "0.0", "C", "0.0", "C")
  const Product17 := Entry("17", "evian___50__3068320353500", "3068320353500", -15, "A", "0.0", "A", "0.0", "A", "0.0", "A", "0.0", "C", "0.0", "C")
  const Product18 := Entry("18", "volvic_pinapple__50__305764335648", "305764335648", 8, "C", "26.0", "B", "6.4", "C", "0.0", "C", "0.0", "C", "0.0", "C")
  const Product20 := Entry("20", "fuse_peach__50__5449000236623", "5449000236623", 6, "D", "19.0", "B", "4.5", "B", "0.0", "A", "0.0", "C", "0.0", "C")
  const Product21 := Entry("21", "fuse_lemon_dose_33__5449000235947", "5449000235947", 4, "C", "19.0", "A", "4.4", "B", "0.0", "A", "0.0", "C", "0.0", "C")
  const Product22 := Entry("22", "rivella_rot__50__7610097111072", "7610097111072", 8, "D", "37.0", "B", "9.0", "D", "0.0", "A", "0.0", "C", "0.0", "C")
  const Product23 := Entry("23", "redbull___33__90162909", "90162909", 10, "E", "46.0", "B", "11.0", "E", "0.0", "A", "0.0", "C", "0.0", "C")
  const Product24 := Entry("24", "valser_vivabirne__50__7610335001530", "7610335001530", 0, "B", "18.0", "B", "4.2", "C", "0.0", "B", "0.0", "C", "0.0", "C")
  const Product25 := Entry("25", "ramseier_jusdepomme__50__7610057001078", "7610057001078", 0, "B", "113.0", "C", "11.0", "E", "0.0", "B", "0.5", "C", "0", "C")
  const Product26 := Entry("26", "fanta___50__40822938", "40822938", 11, "E", "51.0", "B", "12.2", "E", "0.0", "A", "0.0", "C", "0.0", "C")
  const Product27 := Entry("27", "mezzomix___50__54490840", "54490840", 0, "B", "43.0", "C", "10.5", "E", "0.0", "B", "0.0", "C", "0", "C")
  const Product28 := Entry("28", "coke_zero_flasche_50__5449000131836", "5449000131836", 0, "B", "0.2", "A", "0.0", "A", "0.0", "A", "0.0", "C", "0.0", "C")
  const Product29 := Entry("29", "coke__dose_33__54491472", "54491472", 10, "E", "42.0", "B", "10.6", "E", "0.0", "A", "0.0", "C", "0.0", "C")
  const Product31 := Entry("31", "oreo___154__7622300336738", "7622300336738", 20, "E", "480.0", "D", "38.0", "E", "9.8", "D", "5.0", "A", "0.0", "B")
  const Product32 := Entry("32", "bifi_roll__50__4251097402635", "4251097402635", 10, "C", "450.0", "C", "3.5", "A", "14.0", "E", "15.0", "A", "1.5", "B")
  const Product33 := Entry("33", "c+swiss_dosenabisicetea__33__9120025930135", "9120025930135", 9, "D", "31.0", "B", "7.4", "B", "0", "B", "0.0", "C", "0.0", "C")
  const Product34 := Entry("34", "caprisun_multivitamin__20__4000177605004", "4000177605004", 8, "D", "39.0", "B", "9.0", "D", "0.1", "A", "0.5", "C", "0.0", "C")
  const Product35 := Entry("35", "comella_schokodrink__33__7613100037253", "7613100037253", 0, "B", "66.0", "B", "10.0", "C", "0.6", "B", "4.5", "B", "0", "C")
  const Product36 := Entry("36", "valser_still__50__7610335002575", "7610335002575", 0, "B", "0.0", "B", "0.0", "B", "0.0", "B", "0.0", "C", "0.0", "C")
  const Product40 := Entry("40", "redbull_light__33__90162800", "90162800", 1, "B", "3.0", "A", "0.0", "A", "0.0", "A", "0.0", "C", "0.0", "C")
  const Product42 := Entry("42", "zweifel_graneochilli__100__7610095184009", "7610095184009", 8, "C", "471.0", "C", "7.0", "A", "1.5", "A", "8.0", "A", "5.0", "A")
  const Product43 := Entry("43", "jacklinks_beefjerkyorginal__25__4047751730219", "4047751730219", 4, "C", "262.0", "C", "12.0", "C", "1.7", "B", "42.0", "A", "0.0", "C")
  const Product45 := Entry("45", "maltesers___100__5000159023061", "5000159023061", 13, "D", "167.0", "B", "17.2", "B", "5.0", "C", "2.7", "B", "0.0", "C")
  const Product46 := Entry("46", "lorenz_nicnacs__40__4018077798818", "4018077798818", 9, "C", "540.0", "D", "7.3", "A", "11.0", "E", "15.0", "A", "4.4", "A")
  const Product47 := Entry("47", "malburner_partysticks__40__7610200279682", "7610200279682", 12, "D", "490.0", "D", "1", "B", "14.0", "E", "36.0", "A", "0.0", "C")
  const Product48 := Entry("48", "powerbar_proteinplusschoko__55__4029679520028", "4029679520028", 0, "B", "187.0", "C", "16.0", "C", "2.2", "C", "17.0", "A", "7.4", "A")
  const Product49 := Entry("49", "airwaves_menthoneucalyptus_riegel_14_1_50173167", "50173167", 0, "B", "142.0", "B", "0.0", "B", "0.0", "B", "0.0", "C", "0", "C")
  const Product51 := Entry("51", "stimorol_wildcherry_riegel_14_1_57060330", "57060330", 0, "B", "182.0", "C", "0.1", "B", "0.4", "B", "0.4", "C", "0", "C")
  const Product54 := Entry("54", "fini_galaxymix_packung_100_1_8410525150364", "8410525150364", 0, "B", "320.0", "C", "54.0", "E", "0.0", "B", "5.0", "A", "0", "C")
  const Product55 := Entry("55", "fini_jellykisses_packung_80_1_8410525116704", "8410525116704", 0, "B", "326.4", "C", "58.0", "E", "0.0", "B", "4.0", "B", "0", "C")
  const Product56 := Entry("56", "fuse_lemon_dose_33__5449000235947", "5449000235947", 4, "C", "19.0", "A", "4.4", "B", "0.0", "A", "0.0", "C", "0.0", "C")
  const Product58 := Entry("58", "coke__dose_33__54491472", "54491472", 10, "E", "42.0", "B", "10.6", "E", "0.0", "A", "0.0", "C", "0.0", "C")
  const Product148 := Entry("148", "volvic_teeminze__50__3057640335648", "3057640335648", 0, "B", "21.0", "B", "4.9", "B", "0.0", "B", "0.5", "C", "0.0", "C")

  /** The cases of the `switch`, keyed by the case label; `None` is the `default` branch. */
  function Case(k: int): Option<ProductDefinition> {
    match k
    case 1 => Some(Product1)
    case 2 => Some(Product2)
    case 3 => Some(Product3)
    case 4 => Some(Product4)
    case 5 => Some(Product5)
    case 6 => Some(Product6)
    case 8 => Some(Product8)
    case 9 => Some(Product9)
    case 11 => Some(Product11)
    case 12 => Some(Product12)
    case 13 => Some(Product13)
    case 14 => Some(Product14)
    case 15 => Some(Product15)
    case 16 => Some(Product16)
    case 17 => Some(Product17)
    case 18 => Some(Product18)
    case 20 => Some(Product20)
    case 21 => Some(Product21)
    case 22 => Some(Product22)
    case 23 => Some(Product23)
    case 24 => Some(Product24)
    case 25 => Some(Product25)
    case 26 => Some(Product26)
    case 27 => Some(Product27)
    case 28 => Some(Product28)
    case 29 => Some(Product29)
    case 31 => Some(Product31)
    case 32 => Some(Product32)
    case 33 => Some(Product33)
    case 34 => Some(Product34)
    case 35 => Some(Product35)
    case 36 => Some(Product36)
    case 40 => Some(Product40)
    case 42 => Some(Product42)
    case 43 => Some(Product43)
    case 45 => Some(Product45)
    case 46 => Some(Product46)
    case 47 => Some(Product47)
    case 48 => Some(Product48)
    case 49 => Some(Product49)
    case 51 => Some(Product51)
    case 54 => Some(Product54)
    case 55 => Some(Product55)
    case 56 => Some(Product56)
    case 58 => Some(Product58)
    case 148 => Some(Product148)
    case _ => None
  }

  /** Every case sets all fields, writes its own label as the id numeral, and grades the
      product A to E. */
  predicate WellFormedEntry(k: int)
    requires Case(k).Some?
  {
    var p := Case(k).value;
    && 0 < k <= MaxInt32
    && p.id == Some(DecimalString(k))
    && p.nutriLabel.Some? && IsGrade(p.nutriLabel.value)
    && p.gtin.Some? && p.name.Some?
    && p.calories.Some? && p.caloriesColor.Some? && p.sugar.Some? && p.sugarColor.Some?
    && p.fat.Some? && p.fatColor.Some? && p.protein.Some? && p.proteinColor.Some?
    && p.fiber.Some? && p.fiberColor.Some?
  }

  /** The labels of the cases. */
  const CaseLabels: set<int> := {1, 2, 3, 4, 5, 6, 8, 9, 11, 12, 13, 14, 15, 16, 17, 18, 20, 21, 22, 23, 24, 25, 26, 27, 28, 29, 31, 32, 33, 34, 35, 36, 40, 42, 43, 45, 46, 47, 48, 49, 51, 54, 55, 56, 58, 148}

  lemma CaseLabelsCover(k: int)
    ensures Case(k).Some? ==> k in CaseLabels
  {
  }

  // The cases are checked two at a time, which keeps each proof small; the two- and
  // three-digit numerals need their digits spelled out.
  lemma CasesWellFormed0()
    ensures forall k | k in {1, 2} :: Case(k).Some? && WellFormedEntry(k)
  {
  }

  lemma CasesWellFormed1()
    ensures forall k | k in {3, 4} :: Case(k).Some? && WellFormedEntry(k)
  {
  }

  lemma CasesWellFormed2()
    ensures forall k | k in {5, 6} :: Case(k).Some? && WellFormedEntry(k)
  {
  }

  lemma CasesWellFormed3()
    ensures forall k | k in {8, 9} :: Case(k).Some? && WellFormedEntry(k)
  {
  }

  lemma CasesWellFormed4()
    ensures forall k | k in {11, 12} :: Case(k).Some? && WellFormedEntry(k)
  {
    DecimalString2(11);
    DecimalString2(12);
  }

  lemma CasesWellFormed5()
    ensures forall k | k in {13, 14} :: Case(k).Some? && WellFormedEntry(k)
  {
    DecimalString2(13);
    DecimalString2(14);
  }

  lemma CasesWellFormed6()
    ensures forall k | k in {15, 16} :: Case(k).Some? && WellFormedEntry(k)
  {
    DecimalString2(15);
    DecimalString2(16);
  }

  lemma CasesWellFormed7()
    ensures forall k | k in {17, 18} :: Case(k).Some? && WellFormedEntry(k)
  {
    DecimalString2(17);
    DecimalString2(18);
  }

  lemma CasesWellFormed8()
    ensures forall k | k in {20, 21} :: Case(k).Some? && WellFormedEntry(k)
  {
    DecimalString2(20);
    DecimalString2(21);
  }

  lemma CasesWellFormed9()
    ensures forall k | k in {22, 23} :: Case(k).Some? && WellFormedEntry(k)
  {
    DecimalString2(22);
    DecimalString2(23);
  }

  lemma CasesWellFormed10()
    ensures forall k | k in {24, 25} :: Case(k).Some? && WellFormedEntry(k)
  {
    DecimalString2(24);
    DecimalString2(25);
  }

  lemma CasesWellFormed11()
    ensures forall k | k in {26, 27} :: Case(k).Some? && WellFormedEntry(k)
  {
    DecimalString2(26);
    DecimalString2(27);
  }

  lemma CasesWellFormed12()
    ensures forall k | k in {28, 29} :: Case(k).Some? && WellFormedEntry(k)
  {
    DecimalString2(28);
    DecimalString2(29);
  }

  lemma CasesWellFormed13()
    ensures forall k | k in {31, 32} :: Case(k).Some? && WellFormedEntry(k)
  {
    DecimalString2(31);
    DecimalString2(32);
  }

  lemma CasesWellFormed14()
    ensures forall k | k in {33, 34} :: Case(k).Some? && WellFormedEntry(k)
  {
    DecimalString2(33);
    DecimalString2(34);
  }

  lemma CasesWellFormed15()
    ensures forall k | k in {35, 36} :: Case(k).Some? && WellFormedEntry(k)
  {
    DecimalString2(35);
    DecimalString2(36);
  }

  lemma CasesWellFormed16()
    ensures forall k | k in {40, 42} :: Case(k).Some? && WellFormedEntry(k)
  {
    DecimalString2(40);
    DecimalString2(42);
  }

  lemma CasesWellFormed17()
    ensures forall k | k in {43, 45} :: Case(k).Some? && WellFormedEntry(k)
  {
    DecimalString2(43);
    DecimalString2(45);
  }

  lemma CasesWellFormed18()
    ensures forall k | k in {46, 47} :: Case(k).Some? && WellFormedEntry(k)
  {
    DecimalString2(46);
    DecimalString2(47);
  }

  lemma CasesWellFormed19()
    ensures forall k | k in {48, 49} :: Case(k).Some? && WellFormedEntry(k)
  {
    DecimalString2(48);
    DecimalString2(49);
  }

  lemma CasesWellFormed20()
    ensures forall k | k in {51, 54} :: Case(k).Some? && WellFormedEntry(k)
  {
    DecimalString2(51);
    DecimalString2(54);
  }

  lemma CasesWellFormed21()
    ensures forall k | k in {55, 56} :: Case(k).Some? && WellFormedEntry(k)
  {
    DecimalString2(55);
    DecimalString2(56);
  }

  lemma CasesWellFormed22()
    ensures forall k | k in {58, 148} :: Case(k).Some? && WellFormedEntry(k)
  {
    DecimalString2(58);
    DecimalString3(148);
  }

  lemma CatalogWellFormed()
    ensures forall k | Case(k).Some? :: WellFormedEntry(k)
  {
    CasesWellFormed0();
    CasesWellFormed1();
    CasesWellFormed2();
    CasesWellFormed3();
    CasesWellFormed4();
    CasesWellFormed5();
    CasesWellFormed6();
    CasesWellFormed7();
    CasesWellFormed8();
    CasesWellFormed9();
    CasesWellFormed10();
    CasesWellFormed11();
    CasesWellFormed12();
    CasesWellFormed13();
    CasesWellFormed14();
    CasesWellFormed15();
    CasesWellFormed16();
    CasesWellFormed17();
    CasesWellFormed18();
    CasesWellFormed19();
    CasesWellFormed20();
    CasesWellFormed21();
    CasesWellFormed22();
    forall k | Case(k).Some? ensures WellFormedEntry(k) {
      CaseLabelsCover(k);
    }
  }

  /** `GetProductNutri(obj_id)`: the case for the truncated id, or a record with nothing set
      when no case matches. */
  function GetProductNutri(objId: real): (p: ProductDefinition)
    ensures Case(Truncate(objId)).Some? ==>
              0 < Truncate(objId) <= MaxInt32 &&
              p.id == Some(DecimalString(Truncate(objId))) &&
              p.nutriLabel.Some? && IsGrade(p.nutriLabel.value)
    ensures Case(Truncate(objId)).None? ==> p == Unset
  {
    CatalogWellFormed();
    var k := Truncate(objId);
    Case(k).GetOr(Unset)
  }

  /** `GetNutriColor(letter)`: the five grade colours at alpha 0.8, white for anything else
      (including a null string). */
  function GetNutriColor(letter: Option<string>): (c: Color)
    ensures letter.Some? && IsGrade(letter.value) ==> c.a == 0.8 && c != White
    ensures !(letter.Some? && IsGrade(letter.value)) ==> c == White
  {
    match letter
    case Some("A") => Color(3.0 / 255.0, 129.0 / 255.0, 65.0 / 255.0, 0.8)
    case Some("B") => Color(133.0 / 255.0, 187.0 / 255.0, 47.0 / 255.0, 0.8)
    case Some("C") => Color(254.0 / 255.0, 203.0 / 255.0, 2.0 / 255.0, 0.8)
    case Some("D") => Color(238.0 / 255.0, 129.0 / 255.0, 0.0 / 255.0, 0.8)
    case Some("E") => Color(230.0 / 255.0, 62.0 / 255.0, 17.0 / 255.0, 0.8)
    case _ => White
  }

  /** Different grades get different colours, so the colour shows the grade. */
  lemma GradeColorsDistinct(x: string, y: string)
    requires IsGrade(x) && IsGrade(y) && x != y
    ensures GetNutriColor(Some(x)) != GetNutriColor(Some(y))
  {
  }

  /** The id numeral written by the lookup parses back to the truncated class id. */
  lemma ProductIdRoundTrip(objId: real)
    requires Case(Truncate(objId)).Some?
    ensures TryParseInt32(GetProductNutri(objId).id) == Some(Truncate(objId))
  {
    CatalogWellFormed();
    assert WellFormedEntry(Truncate(objId));
    ParseDecimalRoundTrip(Truncate(objId));
  }
}
