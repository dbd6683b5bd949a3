/** The response viewer: the status badge colour, the size label, and the
    expand/collapse protocol of the highlighted JSON tree. Each expander is
    a button in an `expandable` line whose next sibling is the `content`
    group it opens and closes; its state is whether that group is hidden,
    the two classes on its chevron icon and its `aria-expanded` value. */
module ResponseView {
  import opened Common
  import opened Decimal
  import opened FormatJson

  datatype StatusColor = Green | Yellow | Red

  /** `getStatusColor`: success below 300, redirects below 400, errors
      otherwise. */
  function GetStatusColor(status: int): (c: StatusColor)
    ensures c == Green <==> status < 300
    ensures c == Yellow <==> 300 <= status < 400
    ensures c == Red <==> 400 <= status
  {
    if status < 300 then Green
    else if status < 400 then Yellow
    else Red
  }

  /** `formatSize` for sizes under 1024 bytes: the count and " B". Larger
      sizes are printed as fractions of KB or MB (`None` here). */
  function FormatSize(bytes: nat): (r: Option<string>)
    ensures r.Some? <==> bytes < 1024
    ensures r.Some? ==> |r.value| >= 3 && r.value[|r.value| - 2..] == " B" &&
                        IsDigits(r.value[..|r.value| - 2])
    ensures r.Some? && r.value[0] == '0' ==> bytes == 0
  {
    if bytes < 1024 then Some(NatToString(bytes) + " B") else None
  }

  /** The byte count reads back from its label. */
  lemma FormatSizeReadsBack(bytes: nat)
    requires bytes < 1024
    ensures var text := FormatSize(bytes).value;
            StringToNat(text[..|text| - 2]) == bytes
  {
    var text := FormatSize(bytes).value;
    assert text[..|text| - 2] == NatToString(bytes);
    NatToStringRoundTrip(bytes);
  }

  /** One expander. `contentFollows`: the expandable line's next sibling
      has class `content`; `hasIcon`: the button holds its chevron `svg`. */
  datatype Expander = Expander(contentFollows: bool, hasIcon: bool, hidden: bool,
                               chevronDown: bool, chevronRight: bool, ariaExpanded: bool)

  /** An expander as the formatter emits it: content shown, chevron down,
      `aria-expanded="true"`. */
  function Fresh(contentFollows: bool): (e: Expander)
    ensures e.contentFollows == contentFollows && e.hasIcon && !e.hidden && e.ariaExpanded
    ensures e.chevronDown && !e.chevronRight
  {
    Expander(contentFollows, true, false, true, false, true)
  }

  /** The icon and the aria attribute agree with the content's visibility. */
  predicate Consistent(e: Expander)
  {
    e.hasIcon ==> e.ariaExpanded == !e.hidden && e.chevronDown == !e.hidden && e.chevronRight == e.hidden
  }

  /** A click on an expander: without a following `content` group nothing
      changes; otherwise the group's visibility flips, and when the icon is
      there both chevron classes flip and `aria-expanded` reports whether
      the group is now shown. */
  function Click(e: Expander): (r: Expander)
    ensures r.contentFollows == e.contentFollows && r.hasIcon == e.hasIcon
    ensures !e.contentFollows ==> r == e
    ensures e.contentFollows ==> r.hidden == !e.hidden
    ensures e.contentFollows && e.hasIcon ==>
              r.chevronDown == !e.chevronDown && r.chevronRight == !e.chevronRight && r.ariaExpanded == !r.hidden
    ensures !e.hasIcon ==> r.chevronDown == e.chevronDown && r.chevronRight == e.chevronRight &&
                           r.ariaExpanded == e.ariaExpanded
  {
    if !e.contentFollows then e
    else
      var hidden := !e.hidden;
      if e.hasIcon then
        e.(hidden := hidden, chevronDown := !e.chevronDown, chevronRight := !e.chevronRight,
           ariaExpanded := !hidden)
      else e.(hidden := hidden)
  }

  /** A click keeps icon, attribute and visibility in agreement. */
  lemma ClickKeepsConsistent(e: Expander)
    requires Consistent(e)
    ensures Consistent(Click(e))
  {
  }

  /** Two clicks restore the expander whenever its attribute agreed with the
      group's visibility; in particular from any consistent state. */
  lemma ClickTwice(e: Expander)
    requires e.hasIcon && e.contentFollows ==> e.ariaExpanded == !e.hidden
    ensures Click(Click(e)) == e
  {
  }

  /** The expanders of a rendered tree in document order: each opening line
      carries one, and its content follows when the next element is a
      group. */
  function ExpandersOf(els: seq<Element>): seq<Expander>
    decreases els
  {
    if els == [] then []
    else
      (if els[0].Row? && els[0].line.role == Opening then [Fresh(|els| > 1 && els[1].Group?)] else [])
      + ExpandersIn(els[0]) + ExpandersOf(els[1..])
  }

  function ExpandersIn(e: Element): seq<Expander>
    decreases e
  {
    if e.Group? then ExpandersOf(e.items) else []
  }

  /** Every expander in a well-formed run has its content group right after
      it, and starts shown and consistent. */
  lemma {:induction false} SiblingsExpanders(els: seq<Element>, depth: nat, keyed: bool)
    requires Siblings(els, depth, keyed)
    ensures forall i :: 0 <= i < |ExpandersOf(els)| ==> ExpandersOf(els)[i] == Fresh(true)
    decreases els
  {
    if els != [] {
      var first := els[0].line;
      if first.role == Plain {
        SiblingsExpanders(els[1..], depth, keyed);
      } else {
        GroupExpanders(els[1], depth, first.token.bracket);
        SiblingsExpanders(els[3..], depth, keyed);
        assert els[1..][1..][1..] == els[3..];
        assert ExpandersOf(els[1..]) == ExpandersIn(els[1]) + ExpandersOf(els[2..]);
        assert ExpandersOf(els[2..]) == ExpandersOf(els[3..]);
      }
    }
  }

  lemma {:induction false} GroupExpanders(g: Element, depth: nat, bracket: Bracket)
    requires GroupOf(g, depth, bracket)
    ensures forall i :: 0 <= i < |ExpandersIn(g)| ==> ExpandersIn(g)[i] == Fresh(true)
    decreases g
  {
    SiblingsExpanders(g.items, depth + 1, bracket == Brace);
  }

  /** Every expander of a highlighted document starts shown, with its
      content group in place and its icon and attribute in agreement. */
  lemma HighlightedExpanders(json: string, v: JsonValue)
    ensures var r := SyntaxHighlight(json, Some(v));
            forall i :: 0 <= i < |ExpandersOf(r.elements)| ==>
              ExpandersOf(r.elements)[i].contentFollows && Consistent(ExpandersOf(r.elements)[i]) &&
              !ExpandersOf(r.elements)[i].hidden
  {
    RootRendering(json, v);
    SiblingsExpanders(SyntaxHighlight(json, Some(v)).elements, 0, false);
  }

  /** Where a click lands: inside the expander with this index (on the
      button or on its icon), or outside every expander. */
  datatype ClickTarget = InExpander(index: nat) | Elsewhere

  /** The element a key event is aimed at: an expander button itself, or
      any other element. */
  datatype KeyTarget = ExpanderButton(index: nat) | OtherElement

  /** The keys that activate an expander. */
  predicate IsActivationKey(key: string)
  {
    key == "Enter" || key == " "
  }

  /** The tree's expanders as the page holds them. */
  class ExpanderTree {
    var expanders: seq<Expander>

    /** The tree as the formatter rendered it. */
    constructor (rendered: seq<Element>)
      ensures expanders == ExpandersOf(rendered)
    {
      expanders := ExpandersOf(rendered);
    }

    /** The tree's click handler. */
    method OnClick(target: ClickTarget)
      requires target.InExpander? ==> target.index < |expanders|
      modifies this
      ensures target.Elsewhere? ==> expanders == old(expanders)
      ensures target.InExpander? ==>
                expanders == old(expanders)[target.index := Click(old(expanders)[target.index])]
    {
      if target.InExpander? {
        expanders := expanders[target.index := Click(expanders[target.index])];
      }
    }

    /** The tree's key handler: Enter or Space on an expander button clicks
        it; any other key, or any other target, does nothing. */
    method OnKeyDown(key: string, target: KeyTarget)
      requires target.ExpanderButton? ==> target.index < |expanders|
      modifies this
      ensures IsActivationKey(key) && target.ExpanderButton? ==>
                expanders == old(expanders)[target.index := Click(old(expanders)[target.index])]
      ensures !(IsActivationKey(key) && target.ExpanderButton?) ==> expanders == old(expanders)
    {
      if IsActivationKey(key) && target.ExpanderButton? {
        OnClick(InExpander(target.index));
      }
    }

    /** A key press on an expander as the page receives it: the handler
        runs, then the browser's own activation of a focused button
        (Enter, or Space) clicks it once more, since the handler does not
        cancel it. */
    method KeyPressAsWritten(key: string, target: KeyTarget)
      requires target.ExpanderButton? ==> target.index < |expanders|
      modifies this
      ensures IsActivationKey(key) && target.ExpanderButton? ==>
                expanders == old(expanders)[target.index := Click(Click(old(expanders)[target.index]))]
      ensures !(IsActivationKey(key) && target.ExpanderButton?) ==> expanders == old(expanders)
    {
      OnKeyDown(key, target);
      if IsActivationKey(key) && target.ExpanderButton? {
        OnClick(InExpander(target.index));
      }
    }

    /** A key press with the handler cancelling the browser's activation
        after its own click: the expander toggles once. */
    method KeyPress(key: string, target: KeyTarget)
      requires target.ExpanderButton? ==> target.index < |expanders|
      modifies this
      ensures IsActivationKey(key) && target.ExpanderButton? ==>
                expanders == old(expanders)[target.index := Click(old(expanders)[target.index])]
      ensures !(IsActivationKey(key) && target.ExpanderButton?) ==> expanders == old(expanders)
    {
      OnKeyDown(key, target);
    }
  }
}
