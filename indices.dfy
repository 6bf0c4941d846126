/** `describe_indices`: the Italian description of the four averaged
    vegetation indices. Each index other than NDRE is classified by the first
    threshold of its table it does not exceed; the GCI/NDRE ratio
    ("efficiency") is classified into one of five health ranges; the parts
    are joined with ", ", the efficiency message last. */
module Indices {
  import opened Numeric

  /** A float64 as NumPy computes with it: NaN, the two infinities or an
      ordinary number. */
  datatype Float = FNaN | NegInf | PosInf | Finite(r: real)

  /** The float64 a table cell holds. */
  function FromVal(v: Val): (f: Float)
    ensures f.FNaN? <==> v.NaN?
    ensures v.Num? ==> f == Finite(v.r)
  {
    match v
    case NaN => FNaN
    case Num(r) => Finite(r)
  }

  /** `x <= c`; false whenever x is NaN. */
  predicate AtMost(x: Float, c: real)
  {
    match x
    case FNaN => false
    case NegInf => true
    case PosInf => false
    case Finite(r) => r <= c
  }

  /** `x < c`. */
  predicate Below(x: Float, c: real)
  {
    match x
    case FNaN => false
    case NegInf => true
    case PosInf => false
    case Finite(r) => r < c
  }

  /** `x >= c`. */
  predicate AtLeast(x: Float, c: real)
  {
    match x
    case FNaN => false
    case NegInf => false
    case PosInf => true
    case Finite(r) => r >= c
  }

  /** `x > c`. */
  predicate Above(x: Float, c: real)
  {
    match x
    case FNaN => false
    case NegInf => false
    case PosInf => true
    case Finite(r) => r > c
  }

  /** NumPy float64 division `x / y`: a non-zero number over zero gives an
      infinity of its sign, 0/0 and inf/inf give NaN, a number over an
      infinity gives 0. Zero is taken as +0. */
  function Divide(x: Float, y: Float): (q: Float)
    ensures (x.FNaN? || y.FNaN?) ==> q.FNaN?
    // division by a non-zero number is undone by multiplying back
    ensures x.Finite? && y.Finite? && y.r != 0.0 ==> q.Finite? && q.r * y.r == x.r
    // a value above zero over a number above zero stays above zero
    ensures Above(x, 0.0) && y.Finite? && y.r > 0.0 ==> Above(q, 0.0)
    // over zero: 0/0 is NaN, otherwise an infinity of the numerator's sign
    ensures x.Finite? && y == Finite(0.0) ==>
              (q.FNaN? <==> x.r == 0.0) && (q.PosInf? <==> x.r > 0.0) && (q.NegInf? <==> x.r < 0.0)
    // a number over an infinity is zero
    ensures x.Finite? && !y.Finite? && !y.FNaN? ==> q == Finite(0.0)
    // an infinity over a number is an infinity, its sign the product of the signs (zero as +0)
    ensures !x.Finite? && !x.FNaN? && y.Finite? ==> (q.PosInf? <==> (x.PosInf? <==> y.r >= 0.0)) && !q.Finite? && !q.FNaN?
    // an infinity over an infinity is NaN
    ensures !x.Finite? && !x.FNaN? && !y.Finite? && !y.FNaN? ==> q.FNaN?
  {
    match (x, y)
    case (FNaN, _) => FNaN
    case (_, FNaN) => FNaN
    case (Finite(a), Finite(b)) =>
      if b != 0.0 then Finite(a / b)
      else if a > 0.0 then PosInf
      else if a < 0.0 then NegInf
      else FNaN
    case (Finite(_), _) => Finite(0.0)
    case (_, Finite(b)) => if x.PosInf? == (b >= 0.0) then PosInf else NegInf
    case _ => FNaN
  }

  /** A threshold and the text of the values that do not exceed it. */
  datatype Rule = Rule(threshold: real, text: string)

  const NdviRules: seq<Rule> := [
    Rule(0.0, "area non vegetata o terreno zuppo"),
    Rule(0.3, "scarsa densità vegetativa"),
    Rule(0.6, "moderata densità vegetativa"),
    Rule(1.0, "zona densamente vegetata")]

  const NdreRules: seq<Rule> := [
    Rule(0.2, "vegetazione altamente stressata ed improduttiva"),
    Rule(0.4, "vegetazione moderatamente stressata produttivamente"),
    Rule(0.6, "vegetazione produttiva"),
    Rule(1.0, "vegetazione sana e vigorosa")]

  const GciRules: seq<Rule> := [
    Rule(1.0, "Scarsa qta clorofilla - vegetazione inattiva"),
    Rule(2.0, "Poca qta clorofilla - vegetazione poco attiva"),
    Rule(3.0, "Sufficiente clorofilla - vegetazione attiva"),
    Rule(4.0, "Molta clorofilla - vegetazione molto attiva"),
    Rule(10.0, "Abbondante clorofilla - vegetazione abbondantemente attiva")]

  const NdmiRules: seq<Rule> := [
    Rule(0.0, "area non vegetata"),
    Rule(0.1, "vegetazione con elevato stress idrico (o in spigamento)"),
    Rule(0.4, "scarsa idratazione"),
    Rule(0.6, "vegetazione regolare con esigenze idriche"),
    Rule(1.0, "vegetazione con riserve idriche abbondanti")]

  /** The `rules` dictionary: a threshold table per index name. */
  type RuleBook = map<string, seq<Rule>>

  const Book: RuleBook :=
    map["NDVI" := NdviRules, "NDRE" := NdreRules, "GCI" := GciRules, "NDMI" := NdmiRules]

  /** Thresholds strictly increase along the table. */
  predicate Ascending(rules: seq<Rule>)
  {
    forall i, j :: 0 <= i < j < |rules| ==> rules[i].threshold < rules[j].threshold
  }

  lemma TablesAscending()
    ensures Ascending(NdviRules) && Ascending(NdreRules) && Ascending(GciRules) && Ascending(NdmiRules)
  {
  }

  /** The text of the first rule whose threshold the value does not exceed. */
  function FirstMatch(v: Float, rules: seq<Rule>): Option<string>
  {
    if rules == [] then None
    else if AtMost(v, rules[0].threshold) then Some(rules[0].text)
    else FirstMatch(v, rules[1..])
  }

  /** The i-th rule's text is chosen exactly when the value is within its
      threshold and beyond every earlier one. */
  lemma {:induction false} FirstMatchIndex(v: Float, rules: seq<Rule>, i: int)
    requires 0 <= i < |rules| && AtMost(v, rules[i].threshold)
    requires forall j :: 0 <= j < i ==> !AtMost(v, rules[j].threshold)
    ensures FirstMatch(v, rules) == Some(rules[i].text)
  {
    if i > 0 {
      FirstMatchIndex(v, rules[1..], i - 1);
    }
  }

  /** No text is chosen exactly when the value exceeds every threshold (or
      is NaN). */
  lemma {:induction false} FirstMatchNone(v: Float, rules: seq<Rule>)
    ensures FirstMatch(v, rules).None? <==> forall i :: 0 <= i < |rules| ==> !AtMost(v, rules[i].threshold)
  {
    if rules != [] {
      FirstMatchNone(v, rules[1..]);
      if FirstMatch(v, rules).None? {
        forall i | 0 < i < |rules| ensures !AtMost(v, rules[i].threshold) {
          assert rules[i] == rules[1..][i - 1];
        }
      }
    }
  }

  /** On an ascending table, a value gets a text exactly when it does not
      exceed the last threshold. */
  lemma AscendingMatch(v: Float, rules: seq<Rule>)
    requires rules != [] && Ascending(rules)
    ensures FirstMatch(v, rules).Some? <==> AtMost(v, rules[|rules| - 1].threshold)
  {
    FirstMatchNone(v, rules);
    var last := |rules| - 1;
    if !AtMost(v, rules[last].threshold) {
      forall i | 0 <= i < |rules| ensures !AtMost(v, rules[i].threshold) {
        if i < last {
          assert rules[i].threshold < rules[last].threshold;
        }
      }
    }
  }

  /** What one `(index_name, value)` item contributes: nothing for NDRE,
      for a name without a table or with an empty one, else the first
      matching text of its table. */
  function Contribution(book: RuleBook, name: string, v: Float): Option<string>
  {
    if name == "NDRE" then None
    else if name !in book || book[name] == [] then None
    else FirstMatch(v, book[name])
  }

  function OptionList(o: Option<string>): (xs: seq<string>)
    ensures |xs| <= 1
  {
    match o
    case None => []
    case Some(x) => [x]
  }

  /** The threshold texts of the items, in the dictionary's order. */
  function Texts(book: RuleBook, items: seq<(string, Float)>): seq<string>
  {
    if items == [] then []
    else
      var last := items[|items| - 1];
      Texts(book, items[..|items| - 1]) + OptionList(Contribution(book, last.0, last.1))
  }

  /** The names that can contribute a threshold text. */
  predicate Described(book: RuleBook, name: string)
  {
    name != "NDRE" && name in book
  }

  /** With the dictionary of `describe_indices` these are NDVI, GCI and NDMI. */
  lemma DescribedNames(name: string)
    ensures Described(Book, name) <==> name == "NDVI" || name == "GCI" || name == "NDMI"
  {
  }

  function CountDescribed(book: RuleBook, items: seq<(string, Float)>): nat
  {
    if items == [] then 0
    else CountDescribed(book, items[..|items| - 1]) + (if Described(book, items[|items| - 1].0) then 1 else 0)
  }

  /** Only items with a table other than NDRE contribute, at most one text
      each, and every text is the first match of such an item's table. */
  lemma {:induction false} TextsFromDescribed(book: RuleBook, items: seq<(string, Float)>)
    ensures |Texts(book, items)| <= CountDescribed(book, items)
    ensures forall x :: x in Texts(book, items) ==>
              exists i :: 0 <= i < |items| && Described(book, items[i].0) &&
                          FirstMatch(items[i].1, book[items[i].0]) == Some(x)
  {
    if items != [] {
      var init, last := items[..|items| - 1], items[|items| - 1];
      TextsFromDescribed(book, init);
      assert Texts(book, items) == Texts(book, init) + OptionList(Contribution(book, last.0, last.1));
      forall x | x in Texts(book, items)
        ensures exists i :: 0 <= i < |items| && Described(book, items[i].0) &&
                            FirstMatch(items[i].1, book[items[i].0]) == Some(x)
      {
        if x in Texts(book, init) {
          var i :| 0 <= i < |init| && Described(book, init[i].0) && FirstMatch(init[i].1, book[init[i].0]) == Some(x);
          assert items[i] == init[i];
        } else {
          assert items[|items| - 1] == last;
        }
      }
    }
  }

  /** Python's `sep.join(parts)`. */
  function Join(parts: seq<string>, sep: string): string
  {
    if parts == [] then []
    else if |parts| == 1 then parts[0]
    else Join(parts[..|parts| - 1], sep) + sep + parts[|parts| - 1]
  }

  /** Joining one more part appends the separator and the part. */
  lemma JoinSnoc(parts: seq<string>, x: string, sep: string)
    ensures Join(parts + [x], sep) == if parts == [] then x else Join(parts, sep) + sep + x
  {
    assert (parts + [x])[..|parts|] == parts;
  }

  /** The five efficiency ranges of `describe_indices`. */
  datatype Health = Young | Healthy | SlightlyStressed | Inefficient | VerySick

  /** The if/elif chain on the efficiency, with float64 comparisons; NaN
      fails every test and falls to the last branch. */
  function Category(e: Float): Health
  {
    if Below(e, 6.0) then Young
    else if AtLeast(e, 6.0) && AtMost(e, 10.0) then Healthy
    else if Above(e, 10.0) && Below(e, 12.0) then SlightlyStressed
    else if AtLeast(e, 12.0) && Below(e, 15.0) then Inefficient
    else VerySick
  }

  /** The ranges as the messages and the closing comment state them:
      below 6, 6 to 10, between 10 and 12, 12 to below 15, 15 and above. */
  predicate InRange(h: Health, x: real)
  {
    match h
    case Young => x < 6.0
    case Healthy => 6.0 <= x <= 10.0
    case SlightlyStressed => 10.0 < x < 12.0
    case Inefficient => 12.0 <= x < 15.0
    case VerySick => x >= 15.0
  }

  /** Every number falls in exactly one range, and the chain picks it: the
      ranges are disjoint and cover the reals. */
  lemma CategoryRanges(x: real, h: Health)
    ensures Category(Finite(x)) == h <==> InRange(h, x)
  {
  }

  /** The last branch is taken exactly for NaN, +inf and numbers of at
      least 15; -inf counts as young vegetation. */
  lemma LastBranch(e: Float)
    ensures Category(e) == VerySick <==> e.FNaN? || AtLeast(e, 15.0)
    ensures Category(NegInf) == Young
  {
  }

  function HealthText(h: Health): string
  {
    match h
    case Young => "Vegetazione giovane o potata (0-6)"
    case Healthy => "Vegetazione in salute (6 - 10)"
    case SlightlyStressed => "Vegetazione leggermente stressata, attenzionare eventuali patogeni (10-12)"
    case Inefficient => "Vegetazione inefficiente, clorofilla inattiva, monitorare per patologie(12 - 15)"
    case VerySick => "Vegetazione molto malata (>15) - patologie"
  }

  const EfficiencyLead: string := "\n\nClorofilla disponibile su clorofilla biochimicamente attiva GCI/NDRE: "

  /** The efficiency part: lead text, the number as `render` writes it
      (`:.2f`), " - " and the range's text. */
  function EfficiencyPart(e: Float, render: Float -> string): string
  {
    EfficiencyLead + render(e) + " - " + HealthText(Category(e))
  }

  /** `values[key]`: the value of the first item with that name. */
  function Lookup(items: seq<(string, Float)>, key: string): (o: Option<Float>)
    ensures o.Some? <==> exists i :: 0 <= i < |items| && items[i].0 == key
    ensures o.Some? ==> exists i :: 0 <= i < |items| && items[i] == (key, o.value)
                                    && forall j :: 0 <= j < i ==> items[j].0 != key
  {
    if items == [] then None
    else if items[0].0 == key then Some(items[0].1)
    else
      var o := Lookup(items[1..], key);
      assert forall i :: 0 < i < |items| ==> items[i] == items[1..][i - 1];
      if o.Some? then
        var i :| 0 <= i < |items[1..]| && items[1..][i] == (key, o.value)
                 && forall j :: 0 <= j < i ==> items[1..][j].0 != key;
        assert items[i + 1] == (key, o.value) && forall j :: 0 <= j < i + 1 ==> items[j].0 != key;
        o
      else o
  }

  /** `values[...]` raises KeyError for a missing name. */
  datatype Error = MissingKey(key: string)

  /** The description of a dictionary of index values, given as its items
      in order, with the given threshold tables: GCI is looked up before
      NDRE. */
  function Description(book: RuleBook, items: seq<(string, Float)>, render: Float -> string): Result<string, Error>
  {
    match Lookup(items, "GCI")
    case None => Err(MissingKey("GCI"))
    case Some(gci) =>
      match Lookup(items, "NDRE")
      case None => Err(MissingKey("NDRE"))
      case Some(ndre) => Ok(Join(Texts(book, items) + [EfficiencyPart(Divide(gci, ndre), render)], ", "))
  }

  /** The description fails exactly when GCI or NDRE is missing, and then
      ends with the efficiency part, after the threshold texts and ", ". */
  lemma DescriptionShape(book: RuleBook, items: seq<(string, Float)>, render: Float -> string)
    ensures Description(book, items, render).Err? <==> Lookup(items, "GCI").None? || Lookup(items, "NDRE").None?
    ensures Description(book, items, render).Ok? ==>
              var part := EfficiencyPart(Divide(Lookup(items, "GCI").value, Lookup(items, "NDRE").value), render);
              Description(book, items, render).value ==
                if Texts(book, items) == [] then part else Join(Texts(book, items), ", ") + ", " + part
  {
    if Description(book, items, render).Ok? {
      var part := EfficiencyPart(Divide(Lookup(items, "GCI").value, Lookup(items, "NDRE").value), render);
      JoinSnoc(Texts(book, items), part, ", ");
    }
  }

  /** The dictionary `resume_img.py` builds: NDVI, NDRE, NDMI, GCI. */
  function Values(ndvi: Float, ndre: Float, ndmi: Float, gci: Float): seq<(string, Float)>
  {
    [("NDVI", ndvi), ("NDRE", ndre), ("NDMI", ndmi), ("GCI", gci)]
  }

  /** One more item adds its contribution at the end. */
  lemma TextsSnoc(book: RuleBook, items: seq<(string, Float)>, x: (string, Float))
    ensures Texts(book, items + [x]) == Texts(book, items) + OptionList(Contribution(book, x.0, x.1))
  {
    assert (items + [x])[..|items|] == items;
  }

  /** On that dictionary the texts are NDVI's, NDMI's and GCI's
      contributions in this order, so at most three. */
  lemma FourTexts(book: RuleBook, ndvi: Float, ndre: Float, ndmi: Float, gci: Float)
    ensures Texts(book, Values(ndvi, ndre, ndmi, gci)) ==
              OptionList(Contribution(book, "NDVI", ndvi)) + OptionList(Contribution(book, "NDMI", ndmi)) +
              OptionList(Contribution(book, "GCI", gci))
    ensures |Texts(book, Values(ndvi, ndre, ndmi, gci))| <= 3
  {
    var a, b, c, d := ("NDVI", ndvi), ("NDRE", ndre), ("NDMI", ndmi), ("GCI", gci);
    TextsSnoc(book, [], a);
    TextsSnoc(book, [a], b);
    TextsSnoc(book, [a, b], c);
    TextsSnoc(book, [a, b, c], d);
    assert [a] == [] + [a] && [a, b] == [a] + [b] && [a, b, c] == [a, b] + [c] && [a, b, c, d] == [a, b, c] + [d];
  }

  /** With the tables of `describe_indices`, NDVI, NDMI and GCI contribute
      the first match in their own table. */
  lemma KnownContributions(ndvi: Float, ndmi: Float, gci: Float)
    ensures Contribution(Book, "NDVI", ndvi) == FirstMatch(ndvi, NdviRules)
    ensures Contribution(Book, "NDMI", ndmi) == FirstMatch(ndmi, NdmiRules)
    ensures Contribution(Book, "GCI", gci) == FirstMatch(gci, GciRules)
  {
    assert Book["NDVI"] == NdviRules && NdviRules[0].threshold == 0.0;
    assert Book["NDMI"] == NdmiRules && NdmiRules[0].threshold == 0.0;
    assert Book["GCI"] == GciRules && GciRules[0].threshold == 1.0;
  }

  /** On that dictionary the lookups find GCI and NDRE. */
  lemma FourLookups(ndvi: Float, ndre: Float, ndmi: Float, gci: Float)
    ensures Lookup(Values(ndvi, ndre, ndmi, gci), "GCI") == Some(gci)
    ensures Lookup(Values(ndvi, ndre, ndmi, gci), "NDRE") == Some(ndre)
  {
    var vs := Values(ndvi, ndre, ndmi, gci);
    var w1, w2, w3 := vs[1..], vs[2..], vs[3..];
    assert w1[0] == ("NDRE", ndre) && w1[1..] == w2;
    assert w2[0].0 == "NDMI" && w2[1..] == w3;
    assert w3[0] == ("GCI", gci);
    assert Lookup(w3, "GCI") == Some(gci);
    assert Lookup(w2, "GCI") == Some(gci);
    assert Lookup(w1, "GCI") == Some(gci);
  }

  /** So its description never fails, and the ratio is GCI over NDRE. */
  lemma FourIndices(book: RuleBook, ndvi: Float, ndre: Float, ndmi: Float, gci: Float, render: Float -> string)
    ensures Description(book, Values(ndvi, ndre, ndmi, gci), render) ==
              Ok(Join(Texts(book, Values(ndvi, ndre, ndmi, gci)) + [EfficiencyPart(Divide(gci, ndre), render)], ", "))
  {
    FourLookups(ndvi, ndre, ndmi, gci);
  }

  /** NaN is within no threshold. */
  lemma {:induction false} NaNUnmatched(rules: seq<Rule>)
    ensures FirstMatch(FNaN, rules) == None
  {
    if rules != [] {
      NaNUnmatched(rules[1..]);
    }
  }

  /** With all four values NaN there is no threshold text, and the ratio,
      NaN, falls in the last range. */
  lemma AllNaN(render: Float -> string)
    ensures Description(Book, Values(FNaN, FNaN, FNaN, FNaN), render) == Ok(EfficiencyPart(FNaN, render))
    ensures Category(FNaN) == VerySick
  {
    var f := FNaN;
    LastBranch(f);
    FourIndices(Book, f, f, f, f, render);
    FourTexts(Book, f, f, f, f);
    KnownContributions(f, f, f);
    NaNUnmatched(NdviRules);
    NaNUnmatched(NdmiRules);
    NaNUnmatched(GciRules);
    assert Texts(Book, Values(f, f, f, f)) == [];
    assert Divide(f, f) == f;
    assert [] + [EfficiencyPart(f, render)] == [EfficiencyPart(f, render)];
  }

  /** `describe_indices` as written: a loop over the items, an inner loop
      over the table that stops at the first threshold not exceeded, then
      the two lookups, the ratio and the join. */
  method Describe(items: seq<(string, Float)>, render: Float -> string) returns (r: Result<string, Error>)
    ensures r == Description(Book, items, render)
  {
    var rules := Book;
    var parts: seq<string> := [];
    for i := 0 to |items|
      invariant parts == Texts(rules, items[..i])
    {
      assert items[..i + 1][..i] == items[..i];
      var name, value := items[i].0, items[i].1;
      if name == "NDRE" {
        continue;
      }
      if name !in rules || rules[name] == [] {
        continue;
      }
      var thresholds := rules[name];
      var j := 0;
      while j < |thresholds|
        invariant 0 <= j <= |thresholds|
        invariant FirstMatch(value, thresholds) == FirstMatch(value, thresholds[j..])
      {
        if AtMost(value, thresholds[j].threshold) {
          parts := parts + [thresholds[j].text];
          break;
        }
        assert thresholds[j..][1..] == thresholds[j + 1..];
        j := j + 1;
      }
    }
    assert items[..|items|] == items;
    var gci := Lookup(items, "GCI");
    if gci.None? {
      return Err(MissingKey("GCI"));
    }
    var ndre := Lookup(items, "NDRE");
    if ndre.None? {
      return Err(MissingKey("NDRE"));
    }
    var efficiency := Divide(gci.value, ndre.value);
    parts := parts + [EfficiencyPart(efficiency, render)];
    r := Ok(Join(parts, ", "));
  }
}
