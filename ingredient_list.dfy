/** The ingredient list of the props exercise: a text input and a list that
    grows, at the end, by whatever was typed. */
module IngredientList {

  const InitialIngredients: seq<string> := ["flour", "eggs", "milk", "sugar", "vanilla"]

  class ParentComponent {
    /** The `ingredients` state field. */
    var ingredients: seq<string>
    /** The `newIngredient` state field: the text in the input. */
    var newIngredient: string
    /** Every ingredient added since construction, in order. */
    ghost var added: seq<string>

    /** The list is always the initial five followed by what was added. */
    ghost predicate Valid()
      reads this
    {
      ingredients == InitialIngredients + added
    }

    /** Flour, eggs, milk, sugar and vanilla, and an empty input. */
    constructor ()
      ensures Valid()
      ensures ingredients == InitialIngredients && newIngredient == "" && added == []
    {
      ingredients := InitialIngredients;
      newIngredient := "";
      added := [];
    }

    /** `handleIngredientInput`: records the typed text and nothing else. */
    method HandleIngredientInput(value: string)
      requires Valid()
      modifies this
      ensures Valid()
      ensures newIngredient == value
      ensures ingredients == old(ingredients) && added == old(added)
    {
      newIngredient := value;
    }

    /** `addIngredient`: pushes the current input, even an empty one, onto the
        end of the list and clears the input; existing entries keep their
        positions. */
    method AddIngredient()
      requires Valid()
      modifies this
      ensures Valid()
      ensures ingredients == old(ingredients) + [old(newIngredient)]
      ensures |ingredients| == |old(ingredients)| + 1
      ensures newIngredient == ""
      ensures added == old(added) + [old(newIngredient)]
    {
      var ingredientsList := ingredients;
      ingredientsList := ingredientsList + [newIngredient];
      added := added + [newIngredient];
      newIngredient := "";
      ingredients := ingredientsList;
    }
  }
}
