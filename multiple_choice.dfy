/** The selection logic of a multiple-choice question
    (src/components/Assessment/QuestionTypes/MultipleChoiceQuestion.tsx): a single-select
    question emits the chosen value, a multi-select question toggles it in its list. */
module MultipleChoice {
  import opened Answers
  import Questions

  /** The current selection of a multi-select question; a value that is not a list counts as
      no selection. */
  function CurrentValues(selected: Value): seq<string> {
    if selected.List? then selected.items else []
  }

  /** `values.filter(x => x !== v)`. */
  function Remove(xs: seq<string>, v: string): (r: seq<string>)
    ensures forall x :: x in r <==> x in xs && x != v
    ensures multiset(r) == multiset(xs)[v := 0]
    ensures |r| <= |xs|
  {
    if xs == [] then []
    else
      assert xs == [xs[0]] + xs[1..];
      (if xs[0] == v then [] else [xs[0]]) + Remove(xs[1..], v)
  }

  /** A present value is removed (every occurrence), an absent one is appended. */
  function Toggle(xs: seq<string>, v: string): (r: seq<string>)
    ensures v in r <==> v !in xs
    ensures forall x :: x != v ==> (x in r <==> x in xs)
  {
    if v in xs then Remove(xs, v) else xs + [v]
  }

  /** `handleChange(v)`: the value passed to `onChange`. */
  function HandleChange(multiSelect: bool, selected: Value, v: string): (r: Value)
    ensures !multiSelect ==> r == Text(v)
    ensures multiSelect ==> r.List?
    ensures multiSelect && v !in CurrentValues(selected) ==> r.items == CurrentValues(selected) + [v]
    ensures multiSelect ==> (v in r.items <==> v !in CurrentValues(selected))
    ensures multiSelect ==> forall x :: x != v ==> (x in r.items <==> x in CurrentValues(selected))
  {
    if multiSelect then List(Toggle(CurrentValues(selected), v)) else Text(v)
  }

  /** `isSelected(v)`: membership for a list, equality otherwise. */
  function IsSelected(selected: Value, v: string): bool {
    if selected.List? then v in selected.items else selected == Text(v)
  }

  lemma {:induction false} RemoveKeepsDistinct(xs: seq<string>, v: string)
    requires Questions.Distinct(xs)
    ensures Questions.Distinct(Remove(xs, v))
  {
    if xs != [] {
      assert Questions.Distinct(xs[1..]) by {
        forall i, j | 0 <= i < j < |xs| - 1 ensures xs[1..][i] != xs[1..][j] {
          assert xs[1..][i] == xs[i + 1] && xs[1..][j] == xs[j + 1];
        }
      }
      RemoveKeepsDistinct(xs[1..], v);
      assert xs[0] !in xs[1..] by {
        forall i | 0 <= i < |xs| - 1 ensures xs[1..][i] != xs[0] {
          assert xs[1..][i] == xs[i + 1];
        }
      }
    }
  }

  lemma {:induction false} RemoveAbsent(xs: seq<string>, v: string)
    requires v !in xs
    ensures Remove(xs, v) == xs
  {
    if xs != [] {
      RemoveAbsent(xs[1..], v);
    }
  }

  lemma {:induction false} RemoveAppended(xs: seq<string>, v: string)
    requires v !in xs
    ensures Remove(xs + [v], v) == xs
  {
    if xs == [] {
      assert Remove([v], v) == [] + Remove([], v);
    } else {
      assert (xs + [v])[1..] == xs[1..] + [v];
      RemoveAppended(xs[1..], v);
    }
  }

  /** Toggling keeps a duplicate-free selection duplicate-free. */
  lemma ToggleKeepsDistinct(xs: seq<string>, v: string)
    requires Questions.Distinct(xs)
    ensures Questions.Distinct(Toggle(xs, v))
  {
    if v in xs {
      RemoveKeepsDistinct(xs, v);
    }
  }

  /** Choosing an unselected value twice restores the selection. */
  lemma ToggleTwice(xs: seq<string>, v: string)
    requires v !in xs
    ensures Toggle(Toggle(xs, v), v) == xs
  {
    RemoveAppended(xs, v);
  }

  /** In a multi-select question whose value is a list, a click flips the selection of the
      clicked option and of no other. */
  lemma ClickFlipsSelection(selected: Value, v: string, other: string)
    requires selected.List?
    ensures IsSelected(HandleChange(true, selected, v), v) == !IsSelected(selected, v)
    ensures other != v ==> IsSelected(HandleChange(true, selected, v), other) == IsSelected(selected, other)
  {
  }

  /** In a single-select question the clicked option becomes the only selected one. */
  lemma ClickSelectsOnly(selected: Value, v: string, other: string)
    ensures IsSelected(HandleChange(false, selected, v), other) <==> other == v
  {
  }
}
