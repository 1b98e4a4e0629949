/** The search bar's mode: plain-text or regular-expression search, each with
    constant presentation metadata, and the toggle between the two. */
module Mode {

  /** Which side of the mode buttons a button sits on. */
  datatype Side = Left | Right

  /** The action a mode button dispatches, kept as an opaque tag: the UI
      framework that boxes and dispatches it is not part of this model. */
  datatype Action = ActivateTextMode | ActivateRegexMode

  datatype SearchMode = Text | Regex {

    /** The button caption. */
    function Label(): (s: string)
      ensures |s| > 0
      ensures s == "Text" <==> this == Text
      ensures s == "Regex" <==> this == Regex
    {
      match this
      case Text => "Text"
      case Regex => "Regex"
    }

    /** The region id of the mode's button. */
    function RegionId(): (id: nat)
      ensures id == 3 <==> this == Text
      ensures id == 5 <==> this == Regex
    {
      match this
      case Text => 3
      case Regex => 5
    }

    function TooltipText(): (s: string)
      ensures s == "Activate " + Label() + " Search"
    {
      match this
      case Text => "Activate Text Search"
      case Regex => "Activate Regex Search"
    }

    function ActivateAction(): (a: Action)
      ensures a == ActivateTextMode <==> this == Text
    {
      match this
      case Text => ActivateTextMode
      case Regex => ActivateRegexMode
    }

    function BorderRight(): (b: bool)
      ensures b
    {
      match this
      case Regex => true
      case Text => true
    }

    function BorderLeft(): (b: bool)
      ensures b <==> this == Text
    {
      match this
      case Text => true
      case _ => false
    }

    function ButtonSide(): (side: Option<Side>)
      ensures side.Some?
      ensures side.value == Left <==> this == Text
    {
      match this
      case Text => Some(Left)
      case Regex => Some(Right)
    }
  }

  datatype Option<T> = None | Some(value: T)

  /** The mode the search bar starts in. */
  function DefaultMode(): (m: SearchMode)
    ensures m.Label() == "Text"
  {
    Text
  }

  /** The mode the toggle switches to: always the other one. */
  function NextMode(mode: SearchMode): (next: SearchMode)
    ensures next != mode
  {
    match mode
    case Text => Regex
    case Regex => Text
  }

  /** Toggling twice returns to the starting mode. */
  lemma NextModeInvolution(mode: SearchMode)
    ensures NextMode(NextMode(mode)) == mode
  {
  }

  /** Every mode is reached from exactly one mode by a toggle. */
  lemma NextModeBijective(a: SearchMode, b: SearchMode)
    ensures NextMode(a) == NextMode(b) <==> a == b
    ensures NextMode(a) == b <==> NextMode(b) == a
  {
  }

  /** The metadata tells the modes apart: two modes with the same label,
      region id, tooltip, action or button side are the same mode. */
  lemma MetadataInjective(a: SearchMode, b: SearchMode)
    ensures a.Label() == b.Label() <==> a == b
    ensures a.RegionId() == b.RegionId() <==> a == b
    ensures a.TooltipText() == b.TooltipText() <==> a == b
    ensures a.ActivateAction() == b.ActivateAction() <==> a == b
    ensures a.ButtonSide() == b.ButtonSide() <==> a == b
  {
  }

  /** The two buttons, side by side: the toggle moves the button to the
      other side, and between them the buttons have exactly one left
      border and two right borders. */
  lemma ToggleLayout(mode: SearchMode)
    ensures mode.ButtonSide() != NextMode(mode).ButtonSide()
    ensures mode.BorderLeft() != NextMode(mode).BorderLeft()
    ensures mode.BorderRight() && NextMode(mode).BorderRight()
  {
  }
}
