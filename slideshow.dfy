/** The image slideshow: a current index into a list of slides, two
    navigation actions and the enabled state of the two arrow buttons. Only
    the number of slides matters here. */
module Slideshow {

  /** The index after moving by step: the move happens only when it lands on
      an existing slide. */
  function Navigate(index: int, step: int, count: nat): (r: int)
    ensures 0 <= index < count ==> 0 <= r < count
    ensures 0 <= index + step < count ==> r == index + step
    ensures !(0 <= index + step < count) ==> r == index
  {
    var target := index + step;
    if target >= 0 && target < count then target else index
  }

  /** Whether the previous and the next button are disabled on slide index. */
  function ButtonFlags(index: int, count: nat): (bool, bool)
  {
    (index == 0, index == count - 1)
  }

  /** A button is disabled exactly when the move it stands for would leave
      the index where it is. */
  lemma FlagsMatchNavigation(index: int, count: nat)
    requires 0 <= index < count
    ensures ButtonFlags(index, count).0 <==> Navigate(index, -1, count) == index
    ensures ButtonFlags(index, count).1 <==> Navigate(index, 1, count) == index
  {
  }

  class Viewer {
    const count: nat
    var current: int
    var prevDisabled: bool
    var nextDisabled: bool

    /** The index names a slide and the buttons show the index. */
    ghost predicate Valid()
      reads this
    {
      0 <= current < count && (prevDisabled, nextDisabled) == ButtonFlags(current, count)
    }

    /** The page load: the first slide is shown. */
    constructor (n: nat)
      requires n > 0
      ensures Valid() && count == n && current == 0
    {
      count := n;
      current := 0;
      prevDisabled := true;
      nextDisabled := n == 1;
    }

    /** Show slide index: only the button states are modelled. */
    method ShowSlide(index: int)
      requires 0 <= index < count
      modifies this`prevDisabled, this`nextDisabled
      ensures (prevDisabled, nextDisabled) == ButtonFlags(index, count)
    {
      prevDisabled := index == 0;
      nextDisabled := index == count - 1;
    }

    /** An arrow button or key: move by step if that stays on the list. */
    method ChangeSlide(step: int)
      requires Valid()
      modifies this
      ensures Valid()
      ensures current == Navigate(old(current), step, count)
      ensures current == old(current) ==> prevDisabled == old(prevDisabled) && nextDisabled == old(nextDisabled)
    {
      var newIndex := current + step;
      if newIndex >= 0 && newIndex < count {
        current := newIndex;
        ShowSlide(current);
      }
    }
  }
}
