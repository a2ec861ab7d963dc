/**
 * The selection of agents of `src/client/selection.ts`: a set of agent ids
 * whose `toggle` copies the set and flips the membership of one id.
 */
module Selection {

  /** `toggle(id)`: a new set in which `id` is removed if present and added otherwise. */
  function Toggle(s: set<int>, id: int): (r: set<int>)
    ensures id in s ==> id !in r
    ensures id !in s ==> id in r
    ensures forall x :: x != id ==> (x in r <==> x in s)
  {
    if id in s then s - {id} else s + {id}
  }

  /** Toggling the same id twice gives back the original selection. */
  lemma ToggleTwice(s: set<int>, id: int)
    ensures Toggle(Toggle(s, id), id) == s
  {
    var r := Toggle(Toggle(s, id), id);
    forall x ensures x in r <==> x in s {
    }
  }

  /** Toggles of different ids commute. */
  lemma ToggleCommutes(s: set<int>, a: int, b: int)
    ensures Toggle(Toggle(s, a), b) == Toggle(Toggle(s, b), a)
  {
    var l, r := Toggle(Toggle(s, a), b), Toggle(Toggle(s, b), a);
    forall x ensures x in l <==> x in r {
    }
  }
}
