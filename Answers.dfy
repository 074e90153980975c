/**
 * The answer store of the onboarding questionnaire: a string-keyed bag of
 * answers that every input of the form writes into, last write wins.
 * Values are either text (option ids, free text, dates and numbers as typed)
 * or booleans (the multi-select checkboxes).
 */
module Answers {

  datatype Val = Str(s: string) | Bool(b: bool)

  type Store = map<string, Val>

  /** The store a fresh form starts with, and the one a restart puts back. */
  const Initial: Store := map["contact-pref" := Str("email")]

  /** JavaScript truthiness of a stored value: "" and false are falsy. */
  predicate TruthyVal(v: Val)
  {
    match v
    case Str(s) => s != ""
    case Bool(b) => b
  }

  /** JavaScript truthiness of `formData[key]`: an absent key reads as undefined, which is falsy. */
  predicate Truthy(m: Store, key: string)
    ensures Truthy(m, key) <==> key in m && m[key] != Str("") && m[key] != Bool(false)
  {
    key in m && TruthyVal(m[key])
  }

  /**
   * `formData[key] === lit` for a string literal: only a stored string equal
   * to it matches, so a match on a non-empty literal makes the key truthy.
   */
  predicate Holds(m: Store, key: string, lit: string)
    ensures Holds(m, key, lit) ==> key in m && m[key].Str?
    ensures Holds(m, key, lit) ==> (Truthy(m, key) <==> lit != "")
  {
    key in m && m[key] == Str(lit)
  }

  /** `updateFormData(key, v)`: overwrite one key and keep every other entry. */
  function Set(m: Store, key: string, v: Val): (r: Store)
    ensures r.Keys == m.Keys + {key}
    ensures r[key] == v
    ensures forall k :: k in m && k != key ==> r[k] == m[k]
  {
    m[key := v]
  }

  /** A checkbox toggle, `updateFormData(k, !formData[k])`: stores the negated truthiness. */
  function Toggled(m: Store, key: string): (r: Store)
    ensures r.Keys == m.Keys + {key}
    ensures r[key].Bool? && (Truthy(r, key) <==> !Truthy(m, key))
    ensures forall k :: k in m && k != key ==> r[k] == m[k]
  {
    Set(m, key, Bool(!Truthy(m, key)))
  }

  /** `formData[key] || ''`: the stored value when it is truthy, the empty string otherwise. */
  function OrEmpty(m: Store, key: string): (r: Val)
    ensures TruthyVal(r) <==> Truthy(m, key)
    ensures Truthy(m, key) ==> r == m[key]
    ensures !Truthy(m, key) ==> r == Str("")
  {
    if Truthy(m, key) then m[key] else Str("")
  }

  /** Toggling a checkbox twice gives back its truthiness, whatever was stored before. */
  lemma ToggleTwice(m: Store, key: string)
    ensures Truthy(Toggled(Toggled(m, key), key), key) == Truthy(m, key)
    ensures forall k :: k in m && k != key ==> Toggled(Toggled(m, key), key)[k] == m[k]
  {
    var once := Toggled(m, key);
    assert Truthy(once, key) == !Truthy(m, key);
  }

  /** Last write wins: a second update of the same key hides the first. */
  lemma SetTwice(m: Store, key: string, v: Val, w: Val)
    ensures Set(Set(m, key, v), key, w) == Set(m, key, w)
  {
  }
}
