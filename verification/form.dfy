/** The form state shared by `src/pages/SignupPage.jsx` and
    `src/pages/ProfilePage.jsx`: an object of named fields, some holding text
    and some holding the values of a group of checkboxes, with the two change
    handlers both pages define. */
module Form {
  import opened Common

  /** A field's value: the text of an input or select, or the list a
      checkbox group builds up. */
  datatype FieldValue = Text(text: string) | Items(items: seq<string>)

  /** The `name` of an input, or the field a checkbox group updates: the
      fields of the signup and profile forms together. */
  datatype Field = Name | Email | Password | ConfirmPassword | Subjects | StudyStyle | TimeSlots | AcademicGoal | ProfilePicture

  type Fields = map<Field, FieldValue>

  /** Every name in `texts` holds text and every name in `lists` a list. */
  predicate Shaped(form: Fields, texts: seq<Field>, lists: seq<Field>)
  {
    && (forall k :: k in texts ==> k in form && form[k].Text?)
    && (forall k :: k in lists ==> k in form && form[k].Items?)
  }

  /** `handleChange` / `handleInputChange`: `{ ...prev, [name]: value }`. The
      named field holds the new text; every other field is as it was. */
  function HandleChange(form: Fields, name: Field, value: string): (r: Fields)
    ensures name in r && r[name] == Text(value)
    ensures r.Keys == form.Keys + {name}
    ensures forall k :: k in form && k != name ==> r[k] == form[k]
  {
    form[name := Text(value)]
  }

  /** The new list of a checkbox group: checking appends the value at the
      end (`[...list, value]`), unchecking drops every occurrence of it and
      keeps the rest in order (`list.filter(item => item !== value)`). */
  function Toggle(items: seq<string>, value: string, checked: bool): (r: seq<string>)
    ensures checked ==> |r| == |items| + 1 && r[..|items|] == items && r[|items|] == value
    ensures !checked ==> value !in r && IsSubseq(r, items)
    ensures !checked ==> forall x :: x != value ==> multiset(r)[x] == multiset(items)[x]
  {
    if checked then items + [value] else RemoveAll(items, value)
  }

  /** `handleMultiSelectChange(e, field)`: only `field` changes, to its
      toggled list. Both pages call it only for fields that hold lists. */
  function HandleMultiSelect(form: Fields, field: Field, value: string, checked: bool): (r: Fields)
    requires field in form && form[field].Items?
    ensures r.Keys == form.Keys
    ensures r[field].Items? && r[field].items == Toggle(form[field].items, value, checked)
    ensures forall k :: k in form && k != field ==> r[k] == form[k]
  {
    form[field := Items(Toggle(form[field].items, value, checked))]
  }

  /** Typing into a text field keeps the shape of the form. */
  lemma HandleChangeKeepsShape(form: Fields, texts: seq<Field>, lists: seq<Field>, name: Field, value: string)
    requires Shaped(form, texts, lists)
    requires name !in lists
    ensures Shaped(HandleChange(form, name, value), texts, lists)
  {
  }

  /** Ticking or clearing a box keeps the shape of the form. */
  lemma HandleMultiSelectKeepsShape(form: Fields, texts: seq<Field>, lists: seq<Field>,
                                    field: Field, value: string, checked: bool)
    requires Shaped(form, texts, lists)
    requires field in lists && field !in texts
    ensures Shaped(HandleMultiSelect(form, field, value, checked), texts, lists)
  {
  }

  /** Dropping a value that is not there changes nothing. */
  lemma {:induction false} RemoveAllAbsent(xs: seq<string>, v: string)
    requires v !in xs
    ensures RemoveAll(xs, v) == xs
  {
    if |xs| > 0 {
      assert xs == [xs[0]] + xs[1..];
      RemoveAllAbsent(xs[1..], v);
    }
  }

  /** Dropping a value from a list that ends with it is dropping it from the
      rest. */
  lemma {:induction false} RemoveAllAppended(xs: seq<string>, v: string)
    ensures RemoveAll(xs + [v], v) == RemoveAll(xs, v)
  {
    if |xs| > 0 {
      assert (xs + [v])[1..] == xs[1..] + [v];
      RemoveAllAppended(xs[1..], v);
    } else {
      assert [v][1..] == [];
    }
  }

  /** Checking a box that was clear and clearing it again restores the list. */
  lemma ToggleRoundTrip(items: seq<string>, value: string)
    requires value !in items
    ensures Toggle(Toggle(items, value, true), value, false) == items
  {
    RemoveAllAppended(items, value);
    RemoveAllAbsent(items, value);
  }

  /** Clearing twice is clearing once. */
  lemma UncheckIdempotent(items: seq<string>, value: string)
    ensures Toggle(Toggle(items, value, false), value, false) == Toggle(items, value, false)
  {
    RemoveAllAbsent(RemoveAll(items, value), value);
  }

  /** Checking then clearing, on any list, leaves what clearing alone leaves. */
  lemma CheckThenUncheck(items: seq<string>, value: string)
    ensures Toggle(Toggle(items, value, true), value, false) == Toggle(items, value, false)
  {
    RemoveAllAppended(items, value);
  }
}
