/**
 * `CropAspectSelector`: a row of preset aspect-ratio buttons. Each option gets
 * a button tagged with its index plus 1000; tapping a button selects the option
 * its tag points back to. Assigning the selected option highlights the button
 * of the first option with the same vertical name, reports the ratio and name
 * for the current orientation, and then asks for the menu to close.
 */
module CropAspect {
  import opened Wrappers
  import opened Counting

  /** `RatioItemType`: a preset with a name and a ratio for each orientation. */
  datatype RatioItem = RatioItem(nameH: string, nameV: string, ratioH: real, ratioV: real)

  /** The part of a `UIButton` the selector uses. */
  datatype OptionButton = OptionButton(tag: int, title: string, isSelected: bool)

  /** Calls of the two callbacks, in order. */
  datatype Event = SelectedRatioChanged(ratio: real, name: string) | Close

  const ButtonTagOffset: int := 1000

  function TagFor(idx: int): int {
    idx + ButtonTagOffset
  }

  /** The option index a tapped button stands for. */
  function IndexForTag(tag: int): (idx: int)
    ensures TagFor(idx) == tag
  {
    tag - ButtonTagOffset
  }

  /** Tagging and tapping are inverse: a tap on the button of option `idx` selects option `idx`. */
  lemma TagRoundTrip(idx: int, tag: int)
    ensures IndexForTag(TagFor(idx)) == idx
    ensures TagFor(IndexForTag(tag)) == tag
  {
  }

  /** `name(for:)`: the item's name for the ratio manager's orientation. */
  function NameFor(isHorizontal: bool, item: RatioItem): (name: string)
    ensures isHorizontal ==> name == item.nameH
    ensures !isHorizontal ==> name == item.nameV
  {
    if isHorizontal then item.nameH else item.nameV
  }

  /** The item's ratio for the same orientation as `NameFor`. */
  function RatioFor(isHorizontal: bool, item: RatioItem): (ratio: real)
    ensures isHorizontal ==> ratio == item.ratioH
    ensures !isHorizontal ==> ratio == item.ratioV
  {
    if isHorizontal then item.ratioH else item.ratioV
  }

  /** The index of the first option whose vertical name is `nameV`, if any. */
  function FirstIndexWithNameV(options: seq<RatioItem>, nameV: string): (r: Option<nat>)
    ensures r.Some? ==> r.value < |options| && options[r.value].nameV == nameV
    ensures r.Some? ==> forall j :: 0 <= j < r.value ==> options[j].nameV != nameV
    ensures r.None? ==> forall j :: 0 <= j < |options| ==> options[j].nameV != nameV
  {
    if options == [] then None
    else if options[0].nameV == nameV then Some(0)
    else match FirstIndexWithNameV(options[1..], nameV)
      case None => None
      case Some(k) => Some(k + 1)
  }

  /** The buttons `setupData` builds: one per option, in option order, tagged
      `idx + 1000`, titled for the orientation, highlighted when the option
      equals the selection at that moment. */
  function ButtonsFor(isHorizontal: bool, options: seq<RatioItem>, selected: RatioItem): (bs: seq<OptionButton>)
    ensures |bs| == |options|
    ensures forall i :: 0 <= i < |bs| ==> bs[i].tag == TagFor(i)
    ensures forall i :: 0 <= i < |bs| ==> bs[i].title == NameFor(isHorizontal, options[i])
    ensures forall i :: 0 <= i < |bs| ==> bs[i].isSelected == (options[i] == selected)
  {
    seq(|options|, i requires 0 <= i < |options| =>
      OptionButton(TagFor(i), NameFor(isHorizontal, options[i]), options[i] == selected))
  }

  /** The buttons after `updateSelection`: when some option has the selection's
      vertical name, exactly the buttons carrying the first such option's tag are
      highlighted; otherwise nothing changes. */
  function UpdatedSelection(buttons: seq<OptionButton>, options: seq<RatioItem>, selected: RatioItem): (bs: seq<OptionButton>)
    ensures |bs| == |buttons|
    ensures forall i :: 0 <= i < |bs| ==> bs[i].tag == buttons[i].tag && bs[i].title == buttons[i].title
    ensures FirstIndexWithNameV(options, selected.nameV).None? ==> bs == buttons
    ensures FirstIndexWithNameV(options, selected.nameV).Some? ==>
      forall i :: 0 <= i < |bs| ==>
        (bs[i].isSelected <==> buttons[i].tag == TagFor(FirstIndexWithNameV(options, selected.nameV).value))
  {
    match FirstIndexWithNameV(options, selected.nameV)
    case None => buttons
    case Some(idx) =>
      seq(|buttons|, i requires 0 <= i < |buttons| => buttons[i].(isSelected := buttons[i].tag == TagFor(idx)))
  }

  /** The buttons are those `setupData` lays out for these options, whatever is highlighted. */
  ghost predicate LaidOut(buttons: seq<OptionButton>, isHorizontal: bool, options: seq<RatioItem>) {
    |buttons| == |options| &&
    forall i :: 0 <= i < |buttons| ==>
      buttons[i].tag == TagFor(i) && buttons[i].title == NameFor(isHorizontal, options[i])
  }

  function IsSelected(b: OptionButton): bool {
    b.isSelected
  }

  /** On laid-out buttons, `updateSelection` highlights exactly the button of the
      first option sharing the selection's vertical name, and so at most one
      button: exactly one when such an option exists. */
  lemma UpdatedSelectionHighlightsFirstMatch(buttons: seq<OptionButton>, isHorizontal: bool, options: seq<RatioItem>, selected: RatioItem)
    requires LaidOut(buttons, isHorizontal, options)
    ensures var bs := UpdatedSelection(buttons, options, selected);
      LaidOut(bs, isHorizontal, options) &&
      match FirstIndexWithNameV(options, selected.nameV)
      case None => bs == buttons
      case Some(idx) =>
        CountWhere(bs, IsSelected) == 1 &&
        forall i :: 0 <= i < |bs| ==> (bs[i].isSelected <==> i == idx)
  {
    var bs := UpdatedSelection(buttons, options, selected);
    match FirstIndexWithNameV(options, selected.nameV)
    case None =>
    case Some(idx) =>
      CountWhereOnlyAt(bs, IsSelected, idx);
  }

  /** When the vertical names are distinct, selecting option `k` highlights
      button `k` and no other. */
  lemma SelectingOptionHighlightsItsButton(buttons: seq<OptionButton>, isHorizontal: bool, options: seq<RatioItem>, k: nat)
    requires LaidOut(buttons, isHorizontal, options)
    requires k < |options|
    requires forall i, j :: 0 <= i < j < |options| ==> options[i].nameV != options[j].nameV
    ensures var bs := UpdatedSelection(buttons, options, options[k]);
      CountWhere(bs, IsSelected) == 1 && bs[k].isSelected
  {
    var r := FirstIndexWithNameV(options, options[k].nameV);
    assert r == Some(k);
    UpdatedSelectionHighlightsFirstMatch(buttons, isHorizontal, options, options[k]);
  }

  class CropAspectSelector {
    /** `ratioManager.type == .horizontal` */
    const isHorizontal: bool
    /** `ratioManager.ratios` */
    const options: seq<RatioItem>
    var selectedOption: RatioItem
    var optionButtons: seq<OptionButton>
    /** Calls of `onSelectedRatioChanged` and `onClose`. */
    var events: seq<Event>

    ghost predicate Valid()
      reads this
    {
      LaidOut(optionButtons, isHorizontal, options)
    }

    /** `selectedRatio`: the selected option's ratio for the manager's orientation. */
    function SelectedRatio(): (ratio: real)
      reads this
      ensures isHorizontal ==> ratio == selectedOption.ratioH
      ensures !isHorizontal ==> ratio == selectedOption.ratioV
    {
      RatioFor(isHorizontal, selectedOption)
    }

    /** `init(ratioManager:)`. Swift does not run a class's own property observers
        inside its initializer, so neither assignment to `selectedOption` here
        triggers the `didSet`: the buttons keep the highlight `setupData` gave
        them against the manager's original ratio item, and no callback runs. */
    constructor (isHorizontal: bool, options: seq<RatioItem>, originalRatioItem: RatioItem)
      ensures Valid()
      ensures this.isHorizontal == isHorizontal && this.options == options
      ensures selectedOption == if options != [] then options[0] else originalRatioItem
      ensures optionButtons == ButtonsFor(isHorizontal, options, originalRatioItem)
      ensures events == []
    {
      this.isHorizontal := isHorizontal;
      this.options := options;
      selectedOption := originalRatioItem;
      optionButtons := [];
      events := [];
      new;
      SetupData();
      if options != [] {
        selectedOption := options[0];
      }
    }

    /** `setupData`: appends one button per option, in option order. */
    method SetupData()
      modifies this
      ensures optionButtons == old(optionButtons) + ButtonsFor(isHorizontal, options, selectedOption)
      ensures selectedOption == old(selectedOption) && events == old(events)
    {
      var idx := 0;
      ghost var before := optionButtons;
      ghost var all := ButtonsFor(isHorizontal, options, selectedOption);
      while idx < |options|
        invariant 0 <= idx <= |options|
        invariant optionButtons == before + all[..idx]
        invariant selectedOption == old(selectedOption) && events == old(events)
      {
        var option := options[idx];
        var button := OptionButton(idx + ButtonTagOffset, NameFor(isHorizontal, option), option == selectedOption);
        optionButtons := optionButtons + [button];
        assert all[..idx + 1] == all[..idx] + [button];
        idx := idx + 1;
      }
      assert all[..idx] == all;
    }

    /** `updateSelection`. */
    method UpdateSelection()
      modifies this
      ensures optionButtons == UpdatedSelection(old(optionButtons), options, selectedOption)
      ensures selectedOption == old(selectedOption) && events == old(events)
    {
      var found := FirstIndexWithNameV(options, selectedOption.nameV);
      if found.None? {
        return;
      }
      var tag := found.value + ButtonTagOffset;
      var i := 0;
      while i < |optionButtons|
        invariant 0 <= i <= |optionButtons| == |old(optionButtons)|
        invariant forall j :: i <= j < |optionButtons| ==> optionButtons[j] == old(optionButtons)[j]
        invariant forall j :: 0 <= j < i ==>
          optionButtons[j] == old(optionButtons)[j].(isSelected := old(optionButtons)[j].tag == tag)
        invariant selectedOption == old(selectedOption) && events == old(events)
      {
        optionButtons := optionButtons[i := optionButtons[i].(isSelected := tag == optionButtons[i].tag)];
        i := i + 1;
      }
    }

    /** Assigning `selectedOption` (the setter and its `didSet`), also when the
        new value equals the current one. */
    method SetSelectedOption(option: RatioItem)
      modifies this
      ensures selectedOption == option
      ensures optionButtons == UpdatedSelection(old(optionButtons), options, option)
      ensures events == old(events) +
        [SelectedRatioChanged(RatioFor(isHorizontal, option), NameFor(isHorizontal, option)), Close]
    {
      selectedOption := option;
      UpdateSelection();
      var name := NameFor(isHorizontal, selectedOption);
      events := events + [SelectedRatioChanged(SelectedRatio(), name)];
      events := events + [Close];
    }

    /** `optionButtonTapAction`: the tag names the option; a tag outside the
        options would index out of range, which `optionButtonTapAction` leaves to its callers. */
    method OptionButtonTapAction(tag: int)
      requires Valid()
      requires 0 <= IndexForTag(tag) < |options|
      modifies this
      ensures Valid()
      ensures selectedOption == options[IndexForTag(tag)]
      ensures optionButtons == UpdatedSelection(old(optionButtons), options, selectedOption)
      ensures events == old(events) +
        [SelectedRatioChanged(SelectedRatio(), old(optionButtons)[IndexForTag(tag)].title), Close]
    {
      var idx := tag - ButtonTagOffset;
      SetSelectedOption(options[idx]);
    }

    /** `closeButtonTapAction`: only the close callback runs. */
    method CloseButtonTapAction()
      modifies this
      ensures events == old(events) + [Close]
      ensures selectedOption == old(selectedOption) && optionButtons == old(optionButtons)
    {
      events := events + [Close];
    }
  }
}
