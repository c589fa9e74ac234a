/** The add-habit form: a name, an optional description and one of ten swatch
    colours. Submitting hands the three to the store's `addHabit`, closes the
    modal and clears the form; an empty name submits nothing. */
module AddHabitModal {
  import opened Entities

  /** The swatches, in the order they are drawn. */
  const Palette: seq<string> := ["#ef4444", "#f97316", "#eab308", "#84cc16", "#22c55e",
                                 "#14b8a6", "#0ea5e9", "#6366f1", "#8b5cf6", "#d946ef"]

  class AddHabitForm {
    var name: string
    var description: string
    var color: string

    /** The colour is always one of the swatches. */
    predicate Valid()
      reads this
    {
      color in Palette
    }

    constructor ()
      ensures Valid()
      ensures name == "" && description == "" && color == Palette[0]
    {
      name := "";
      description := "";
      color := Palette[0];
    }

    method SetName(value: string)
      modifies this`name
      ensures name == value
    {
      name := value;
    }

    method SetDescription(value: string)
      modifies this`description
      ensures description == value
    {
      description := value;
    }

    /** A click on the swatch at `index`; only the ten swatches are offered. */
    method PickColor(index: nat)
      requires index < |Palette|
      modifies this`color
      ensures Valid() && color == Palette[index]
    {
      color := Palette[index];
    }

    /** An empty name submits nothing and changes nothing. Otherwise the form's
        three values go to `addHabit` once, the modal closes, and the fields
        return to their initial values. */
    method HandleSubmit() returns (effects: seq<Effect>)
      requires Valid()
      modifies this
      ensures Valid()
      ensures old(name) == "" ==>
        (effects == [] && name == old(name) && description == old(description) && color == old(color))
      ensures old(name) != "" ==>
        (effects == [CallAddHabit(HabitData(old(name), old(description), old(color))), CloseModal] &&
         name == "" && description == "" && color == Palette[0])
    {
      if name == "" {
        return [];
      }
      effects := [CallAddHabit(HabitData(name, description, color))];
      effects := effects + [CloseModal];
      name := "";
      description := "";
      color := Palette[0];
    }

    /** Cancel closes the modal and keeps what was typed. */
    method Cancel() returns (effects: seq<Effect>)
      ensures effects == [CloseModal]
      ensures forall k :: 0 <= k < |effects| ==> !effects[k].CallAddHabit?
    {
      effects := [CloseModal];
    }
  }
}
