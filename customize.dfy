/** The "build your own shirt" configurator: a four-step wizard whose state
    is the current step and a five-field selection, with a price derived
    from the chosen fabric. */
module Customize {
  import opened Wrappers
  import JsArray

  /** One entry of the step indicator. */
  datatype Step = Step(id: int, name: string)

  const Steps: seq<Step> := [Step(1, "Fabric"), Step(2, "Style"), Step(3, "Details"), Step(4, "Preview")]

  const FirstStep: int := 1
  const LastStep: int := 4

  datatype Fabric = Fabric(id: string, name: string, price: int, color: string)

  const Fabrics: seq<Fabric> := [
    Fabric("cotton", "Premium Cotton", 0, "#F5F5DC"),
    Fabric("linen", "Italian Linen", 500, "#E8DCC4"),
    Fabric("silk", "Mulberry Silk", 1500, "#F0E6D2"),
    Fabric("wool", "Merino Wool", 1200, "#D1C4B0")
  ]

  /** A style, collar or sleeve choice. */
  datatype Choice = Choice(id: string, name: string)

  const Styles: seq<Choice> := [Choice("slim", "Slim Fit"), Choice("regular", "Regular Fit"), Choice("relaxed", "Relaxed Fit")]
  const Collars: seq<Choice> := [Choice("classic", "Classic Collar"), Choice("mandarin", "Mandarin Collar"),
                                 Choice("button-down", "Button Down"), Choice("spread", "Spread Collar")]
  const Sleeves: seq<Choice> := [Choice("long", "Long Sleeve"), Choice("short", "Short Sleeve"), Choice("roll-up", "Roll-Up Sleeve")]
  const Colors: seq<string> := ["#FFFFFF", "#000000", "#1E3A5F", "#8B4513", "#228B22", "#8B0000", "#4B0082", "#2F4F4F"]

  const BasePrice: int := 1999

  datatype Selections = Selections(fabric: string, style: string, collar: string, sleeve: string, color: string)

  const DefaultSelections: Selections := Selections("cotton", "regular", "classic", "long", "#1E3A5F")

  /** The five fields of a selection, for stating that a handler touches one. */
  datatype Field = FabricField | StyleField | CollarField | SleeveField | ColorField

  function Get(s: Selections, f: Field): string {
    match f
    case FabricField => s.fabric
    case StyleField => s.style
    case CollarField => s.collar
    case SleeveField => s.sleeve
    case ColorField => s.color
  }

  /** `{ ...selections, [f]: v }` */
  function With(s: Selections, f: Field, v: string): (r: Selections)
    ensures Get(r, f) == v
    ensures forall g :: g != f ==> Get(r, g) == Get(s, g)
  {
    match f
    case FabricField => s.(fabric := v)
    case StyleField => s.(style := v)
    case CollarField => s.(collar := v)
    case SleeveField => s.(sleeve := v)
    case ColorField => s.(color := v)
  }

  /** `fabrics.find(f => f.id === fabric)` */
  function FindFabric(fabric: string): (r: Option<Fabric>)
    ensures r.Some? ==> exists i :: 0 <= i < |Fabrics| && Fabrics[i] == r.value && r.value.id == fabric &&
                                    forall j :: 0 <= j < i ==> Fabrics[j].id != fabric
    ensures r.None? <==> forall i :: 0 <= i < |Fabrics| ==> Fabrics[i].id != fabric
  {
    JsArray.Find(Fabrics, (f: Fabric) => f.id == fabric)
  }

  /** `fabrics.find(...)?.price || 0`: the surcharge of a listed fabric, 0
      for any other id. A listed price of 0 is falsy and also yields 0. */
  function FabricPrice(fabric: string): (r: int)
    ensures r == 0 || exists i :: 0 <= i < |Fabrics| && Fabrics[i].id == fabric && Fabrics[i].price == r
    ensures (forall i :: 0 <= i < |Fabrics| ==> Fabrics[i].id != fabric) ==> r == 0
  {
    match FindFabric(fabric)
    case Some(f) => if f.price != 0 then f.price else 0
    case None => 0
  }

  /** The price shown in the preview: the base price plus the surcharge of
      the selected fabric. It lies between the base price and the dearest
      fabric's surcharge above it. */
  function TotalPrice(s: Selections): (r: int)
    ensures BasePrice <= r <= BasePrice + 1500
  {
    BasePrice + FabricPrice(s.fabric)
  }

  /** Each listed fabric adds exactly its own surcharge. */
  lemma FabricPriceOfListed(i: nat)
    requires i < |Fabrics|
    ensures FindFabric(Fabrics[i].id) == Some(Fabrics[i])
    ensures FabricPrice(Fabrics[i].id) == Fabrics[i].price
  {
    var f := FindFabric(Fabrics[i].id);
    var k :| 0 <= k < |Fabrics| && Fabrics[k] == f.value && f.value.id == Fabrics[i].id &&
             forall j :: 0 <= j < k ==> Fabrics[j].id != Fabrics[i].id;
    assert k == i;
  }

  /** The total depends on the fabric only: selections that agree on the
      fabric cost the same whatever their style, collar, sleeve or color. */
  lemma TotalPriceOnlyByFabric(s: Selections, t: Selections)
    requires s.fabric == t.fabric
    ensures TotalPrice(s) == TotalPrice(t)
  {
  }

  /** The prices of the defaults and of each fabric. */
  lemma ConcretePrices()
    ensures TotalPrice(DefaultSelections) == 1999
    ensures TotalPrice(DefaultSelections.(fabric := "linen")) == 2499
    ensures TotalPrice(DefaultSelections.(fabric := "silk")) == 3499
    ensures TotalPrice(DefaultSelections.(fabric := "wool")) == 3199
  {
    assert TotalPrice(DefaultSelections) == 1999 by { FabricPriceOfListed(0); }
    assert TotalPrice(DefaultSelections.(fabric := "linen")) == 2499 by { FabricPriceOfListed(1); }
    assert TotalPrice(DefaultSelections.(fabric := "silk")) == 3499 by { FabricPriceOfListed(2); }
    assert TotalPrice(DefaultSelections.(fabric := "wool")) == 3199 by { FabricPriceOfListed(3); }
  }

  /** A fabric id outside the table adds nothing. */
  lemma UnlistedFabricPrice(s: Selections)
    requires forall i :: 0 <= i < |Fabrics| ==> Fabrics[i].id != s.fabric
    ensures TotalPrice(s) == BasePrice
  {
  }

  /** `nextStep`: advance unless at the last step. */
  function NextOf(step: int): (r: int)
    ensures FirstStep <= step <= LastStep ==> FirstStep <= r <= LastStep
    ensures r == step || r == step + 1
    ensures r == step <==> step >= LastStep
  {
    if step < LastStep then step + 1 else step
  }

  /** `prevStep`: go back unless at the first step. */
  function PrevOf(step: int): (r: int)
    ensures FirstStep <= step <= LastStep ==> FirstStep <= r <= LastStep
    ensures r == step || r == step - 1
    ensures r == step <==> step <= FirstStep
  {
    if step > FirstStep then step - 1 else step
  }

  /** The clamped moves keep the step in range, are no-ops exactly at the
      ends, and undo each other away from the ends. */
  lemma StepMoves(step: int)
    requires FirstStep <= step <= LastStep
    ensures FirstStep <= NextOf(step) <= LastStep && FirstStep <= PrevOf(step) <= LastStep
    ensures NextOf(step) == step <==> step == LastStep
    ensures PrevOf(step) == step <==> step == FirstStep
    ensures step < LastStep ==> PrevOf(NextOf(step)) == step
    ensures step > FirstStep ==> NextOf(PrevOf(step)) == step
  {
  }

  /** What the navigation row offers. */
  datatype Forward = NextButton | AddToCartButton
  datatype NavBar = NavBar(back: bool, forward: Forward)

  /** Back shows past the first step; Next before the last step, Add to Cart
      on it. */
  function Nav(step: int): (r: NavBar)
    ensures r.back <==> PrevOf(step) != step
    ensures r.forward == NextButton <==> NextOf(step) != step
  {
    NavBar(step > FirstStep, if step < LastStep then NextButton else AddToCartButton)
  }

  /** Each navigation button is offered exactly when pressing it does
      something: Back when it changes the step, Next when it changes the
      step, Add to Cart on the last step only. */
  lemma NavMatchesMoves(step: int)
    requires FirstStep <= step <= LastStep
    ensures Nav(step).back <==> PrevOf(step) != step
    ensures Nav(step).forward == NextButton <==> NextOf(step) != step
    ensures Nav(step).forward == AddToCartButton <==> step == Steps[|Steps| - 1].id
  {
  }

  /** How the step indicator draws a step. */
  datatype Indicator = Current | Done | Ahead

  function IndicatorOf(current: int, id: int): (r: Indicator)
    ensures r == Current <==> id == current
    ensures r == Done <==> id < current
    ensures r == Ahead <==> id > current
  {
    if current == id then Current else if current > id then Done else Ahead
  }

  /** In a valid state exactly one indicator is current, the ones before it
      are done and the ones after it are ahead. */
  lemma IndicatorsAgree(current: int)
    requires FirstStep <= current <= LastStep
    ensures forall i :: 0 <= i < |Steps| ==> (IndicatorOf(current, Steps[i].id) == Current <==> i == current - 1)
    ensures forall i :: 0 <= i < |Steps| ==> (IndicatorOf(current, Steps[i].id) == Done <==> i < current - 1)
  {
  }

  /** The names the preview lists: `table.find(x => x.id === id)?.name`. */
  function ChoiceName(table: seq<Choice>, id: string): (r: Option<string>)
    ensures r.Some? <==> exists i :: 0 <= i < |table| && table[i].id == id
    ensures r.Some? ==> exists i :: 0 <= i < |table| && table[i].id == id && table[i].name == r.value &&
                                    forall j :: 0 <= j < i ==> table[j].id != id
  {
    match JsArray.Find(table, (c: Choice) => c.id == id)
    case Some(c) => Some(c.name)
    case None => None
  }

  /** The preview names the first choice listed with the selected id. */
  lemma ChoiceNameAt(table: seq<Choice>, i: nat)
    requires i < |table|
    requires forall j :: 0 <= j < i ==> table[j].id != table[i].id
    ensures ChoiceName(table, table[i].id) == Some(table[i].name)
  {
    var r := ChoiceName(table, table[i].id);
    var k :| 0 <= k < |table| && table[k].id == table[i].id && table[k].name == r.value &&
             forall j :: 0 <= j < k ==> table[j].id != table[i].id;
    assert k == i;
  }

  datatype Summary = Summary(fabric: Option<string>, fit: Option<string>, collar: Option<string>,
                             sleeve: Option<string>, color: string, total: int)

  function SummaryOf(s: Selections): (r: Summary)
    ensures r.color == s.color && r.total == TotalPrice(s)
    ensures r.fabric.Some? <==> FindFabric(s.fabric).Some?
    ensures r.fabric.Some? ==> r.fabric.value == FindFabric(s.fabric).value.name
    ensures r.fit == ChoiceName(Styles, s.style) && r.collar == ChoiceName(Collars, s.collar)
    ensures r.sleeve == ChoiceName(Sleeves, s.sleeve)
  {
    Summary(match FindFabric(s.fabric) case Some(f) => Some(f.name) case None => None,
            ChoiceName(Styles, s.style), ChoiceName(Collars, s.collar), ChoiceName(Sleeves, s.sleeve),
            s.color, TotalPrice(s))
  }

  /** The defaults name listed choices, and the preview that shows them. */
  lemma DefaultSummary()
    ensures SummaryOf(DefaultSelections) ==
            Summary(Some("Premium Cotton"), Some("Regular Fit"), Some("Classic Collar"), Some("Long Sleeve"), "#1E3A5F", 1999)
    ensures DefaultSelections.fabric == Fabrics[0].id && DefaultSelections.style == Styles[1].id
    ensures DefaultSelections.collar == Collars[0].id && DefaultSelections.sleeve == Sleeves[0].id
    ensures DefaultSelections.color == Colors[2]
  {
    FabricPriceOfListed(0);
    ChoiceNameAt(Styles, 1);
    ChoiceNameAt(Collars, 0);
    ChoiceNameAt(Sleeves, 0);
  }

  /** The notification the final step's Add to Cart raises. */
  datatype Toast = Success(message: string, description: string)

  const SavedToast: Toast := Success("Custom design saved!", "This feature will be fully available soon.")

  /** The configurator component's state. */
  class Configurator {
    var currentStep: int
    var selections: Selections

    ghost predicate Valid()
      reads this
    {
      FirstStep <= currentStep <= LastStep
    }

    /** Opens on the first step with the default selections. */
    constructor ()
      ensures Valid()
      ensures currentStep == FirstStep && selections == DefaultSelections
    {
      currentStep := 1;
      selections := Selections("cotton", "regular", "classic", "long", "#1E3A5F");
    }

    /** The Next button. */
    method NextStep()
      requires Valid()
      modifies this
      ensures Valid()
      ensures currentStep == NextOf(old(currentStep)) && selections == old(selections)
    {
      if currentStep < 4 {
        currentStep := currentStep + 1;
      }
    }

    /** The Back button. */
    method PrevStep()
      requires Valid()
      modifies this
      ensures Valid()
      ensures currentStep == PrevOf(old(currentStep)) && selections == old(selections)
    {
      if currentStep > 1 {
        currentStep := currentStep - 1;
      }
    }

    /** A click on the `index`-th step indicator jumps to that step, from
        wherever the wizard was. */
    method JumpTo(index: nat)
      requires index < |Steps|
      modifies this
      ensures Valid()
      ensures currentStep == Steps[index].id == index + 1 && selections == old(selections)
    {
      currentStep := Steps[index].id;
    }

    /** Picking a fabric card. */
    method SelectFabric(id: string)
      modifies this
      ensures selections == With(old(selections), FabricField, id) && currentStep == old(currentStep)
    {
      selections := selections.(fabric := id);
    }

    /** Picking a fit. */
    method SelectStyle(id: string)
      modifies this
      ensures selections == With(old(selections), StyleField, id) && currentStep == old(currentStep)
    {
      selections := selections.(style := id);
    }

    /** Picking a collar. */
    method SelectCollar(id: string)
      modifies this
      ensures selections == With(old(selections), CollarField, id) && currentStep == old(currentStep)
    {
      selections := selections.(collar := id);
    }

    /** Picking a sleeve length. */
    method SelectSleeve(id: string)
      modifies this
      ensures selections == With(old(selections), SleeveField, id) && currentStep == old(currentStep)
    {
      selections := selections.(sleeve := id);
    }

    /** Picking a color swatch. */
    method SelectColor(color: string)
      modifies this
      ensures selections == With(old(selections), ColorField, color) && currentStep == old(currentStep)
    {
      selections := selections.(color := color);
    }

    /** The final step's Add to Cart: it only notifies, and changes neither
        the step nor the selections. */
    method HandleAddToCart() returns (t: Toast)
      ensures t == SavedToast
    {
      t := Success("Custom design saved!", "This feature will be fully available soon.");
    }

    /** The price the component shows for its current selections. */
    function Price(): (r: int)
      reads this
      ensures BasePrice <= r <= BasePrice + 1500
      ensures r == TotalPrice(selections)
    {
      TotalPrice(selections)
    }
  }
}
