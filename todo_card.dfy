/** The lookups of a task card: the chip colour and English label of a
    priority, the English label of a location, and the expand toggle of the
    description. The lookups take the stored text, so they also say what
    happens to a value outside the enumerations. */
module TodoCard {
  import opened TodoTypes

  /** The chip colours the card uses. */
  datatype ChipColor = Success | Warning | Error | Default

  /** `getPriorityColor`: the three priorities get their own colour and any
      other text the default one. */
  function PriorityColor(priority: string): (r: ChipColor)
    ensures r != Default <==> exists p :: PriorityToken(p) == priority
  {
    if priority == "low" then
      assert PriorityToken(Low) == priority;
      Success
    else if priority == "medium" then
      assert PriorityToken(Medium) == priority;
      Warning
    else if priority == "high" then
      assert PriorityToken(High) == priority;
      Error
    else Default
  }

  /** Priorities are told apart by colour, from the calm one to the alarming one. */
  lemma PriorityColors()
    ensures PriorityColor(PriorityToken(Low)) == Success
    ensures PriorityColor(PriorityToken(Medium)) == Warning
    ensures PriorityColor(PriorityToken(High)) == Error
    ensures forall p, q :: p != q ==> PriorityColor(PriorityToken(p)) != PriorityColor(PriorityToken(q))
  {
  }

  /** `getPriorityLabel`: exactly the three priorities are relabelled; any
      other text is shown as it is. */
  function PriorityLabel(priority: string): (r: string)
    ensures r != priority <==> exists p :: PriorityToken(p) == priority
  {
    if priority == "low" then
      assert PriorityToken(Low) == priority;
      "Low"
    else if priority == "medium" then
      assert PriorityToken(Medium) == priority;
      "Medium"
    else if priority == "high" then
      assert PriorityToken(High) == priority;
      "High"
    else priority
  }

  /** A priority's label is its stored word with the first letter in upper
      case. */
  lemma PriorityLabelCapitalised(p: Priority)
    ensures var token, shown := PriorityToken(p), PriorityLabel(PriorityToken(p));
      |shown| == |token| > 0 && shown[0] as int == token[0] as int - 32 && shown[1..] == token[1..]
  {
    match p
    case Low => assert PriorityLabel("low") == "Low";
    case Medium => assert PriorityLabel("medium") == "Medium";
    case High => assert PriorityLabel("high") == "High";
  }

  /** `getLocationLabel`: the four Russian location words get their English
      label; any other text is shown as it is. */
  function LocationLabel(location: string): (r: string)
    ensures r != location <==> exists l :: LocationToken(l) == location
  {
    if location == "дом" then
      assert LocationToken(Home) == location;
      "Home"
    else if location == "работа" then
      assert LocationToken(Work) == location;
      "Work"
    else if location == "семья" then
      assert LocationToken(Family) == location;
      "Family"
    else if location == "хобби" then
      assert LocationToken(Hobby) == location;
      "Hobby"
    else location
  }

  /** The four locations are shown in English. */
  lemma LocationLabels()
    ensures LocationLabel(LocationToken(Home)) == "Home"
    ensures LocationLabel(LocationToken(Work)) == "Work"
    ensures LocationLabel(LocationToken(Family)) == "Family"
    ensures LocationLabel(LocationToken(Hobby)) == "Hobby"
  {
  }

  /** Different locations get different labels. */
  lemma LocationLabelsDistinct(a: Location, b: Location)
    requires a != b
    ensures LocationLabel(LocationToken(a)) != LocationLabel(LocationToken(b))
  {
    LocationLabels();
  }

  /** The one piece of state of a card. */
  class CardState {
    var expanded: bool

    /** `useState(false)` */
    constructor()
      ensures !expanded
    {
      expanded := false;
    }

    /** The expand button: `setExpanded(!expanded)`. */
    method ToggleExpanded()
      modifies this
      ensures expanded == !old(expanded)
    {
      expanded := !expanded;
    }
  }
}
