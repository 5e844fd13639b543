/** The extracted-terms record a session ends with, the two editing
    operations the results panel offers on it (src/SpeechToText.js:185-205)
    and the split of its categories into populated and empty ones for
    display (src/SpeechToText.js:255-265). */
module Terms {
  import opened Js
  import Seqs

  /** Category name to the ordered list of terms found in it. */
  type Terms = map<string, seq<string>>

  /** `data[category] || []`, with an absent record read as `{}`. */
  function ItemsOf(data: Option<Terms>, category: string): seq<string> {
    if data.Some? && category in data.value then data.value[category] else []
  }

  /** `handleAddItem`: `input` is what the prompt returned (`None` when it was
      cancelled). A blank input changes nothing; otherwise its trimmed value is
      appended to the category, which is created when missing, and every other
      category is left as it was. */
  function AddItem(data: Option<Terms>, category: string, input: Option<string>): (r: Option<Terms>)
    ensures input.None? || Trim(input.value) == "" ==> r == data
    ensures input.Some? && Trim(input.value) != "" ==>
      && r.Some?
      && r.value.Keys == data.GetOr(map[]).Keys + {category}
      && r.value[category] == ItemsOf(data, category) + [Trim(input.value)]
      && forall c | c in r.value && c != category :: r.value[c] == ItemsOf(data, c)
  {
    if input.None? || Trim(input.value) == "" then data
    else
      var current := data.GetOr(map[]);
      Some(current[category := ItemsOf(data, category) + [Trim(input.value)]])
  }

  /** `handleRemoveTerm`: drops every term equal to `term` from the category
      (the code filters, so duplicates all go), keeps the other terms in
      their order and leaves every other category as it was. The category must
      exist: the code calls `filter` on it. */
  function RemoveTerm(data: Terms, category: string, term: string): (r: Terms)
    requires category in data
    ensures r.Keys == data.Keys
    ensures forall c | c in data && c != category :: r[c] == data[c]
    ensures term !in r[category]
    ensures forall t | t != term :: multiset(r[category])[t] == multiset(data[category])[t]
    ensures Seqs.IsSubsequence(r[category], data[category])
  {
    var kept := Seqs.Filter((t: string) => t != term, data[category]);
    Seqs.FilterCounts((t: string) => t != term, data[category]);
    Seqs.FilterIsSubsequence((t: string) => t != term, data[category]);
    data[category := kept]
  }

  /** Removing a term changes the record exactly when the term is present. */
  lemma RemoveTermNoOpIffAbsent(data: Terms, category: string, term: string)
    requires category in data
    ensures RemoveTerm(data, category, term) == data <==> term !in data[category]
  {
    if term !in data[category] {
      Seqs.FilterKeepsAll((t: string) => t != term, data[category]);
    }
  }

  /** Removing the same term twice is removing it once. */
  lemma RemoveTermIdempotent(data: Terms, category: string, term: string)
    requires category in data
    ensures RemoveTerm(RemoveTerm(data, category, term), category, term) == RemoveTerm(data, category, term)
  {
    Seqs.FilterIdempotent((t: string) => t != term, data[category]);
  }

  /** Adding a value the category does not hold and then removing its trimmed
      form gives back the record: the two edits are inverse. */
  lemma AddThenRemove(data: Terms, category: string, input: string)
    requires category in data
    requires Trim(input) != "" && Trim(input) !in data[category]
    ensures var added := AddItem(Some(data), category, Some(input));
            added.Some? && category in added.value &&
            RemoveTerm(added.value, category, Trim(input)) == data
  {
    var v := Trim(input);
    var added := data[category := data[category] + [v]];
    assert AddItem(Some(data), category, Some(input)) == Some(added);
    var keep := (t: string) => t != v;
    Seqs.FilterAppend(keep, data[category], [v]);
    Seqs.FilterKeepsAll(keep, data[category]);
    assert Seqs.Filter(keep, [v]) == [];
    assert Seqs.Filter(keep, added[category]) == data[category];
    assert RemoveTerm(added, category, v) == added[category := data[category]];
    assert added[category := data[category]] == data;
  }

  /** A category is shown as a card when it holds at least one term. */
  predicate Populated(data: Terms, category: string) {
    category in data && |data[category]| > 0
  }

  /** The categories in key order, split into populated and empty ones. */
  datatype Categories = Categories(populated: seq<string>, empty: seq<string>)

  /** The split at src/SpeechToText.js:255-261. `order` is `Object.keys` of the
      record. Each key lands in exactly one part, both parts keep the key
      order, and together they hold every key as often as `order` does. */
  function Partition(order: seq<string>, data: Terms): (r: Categories)
    ensures forall k :: k in r.populated <==> k in order && Populated(data, k)
    ensures forall k :: k in r.empty <==> k in order && !Populated(data, k)
    ensures multiset(r.populated) + multiset(r.empty) == multiset(order)
    ensures Seqs.IsSubsequence(r.populated, order) && Seqs.IsSubsequence(r.empty, order)
  {
    var full := (k: string) => Populated(data, k);
    var blank := (k: string) => !Populated(data, k);
    Seqs.FilterSplits(full, blank, order);
    Seqs.FilterCounts(full, order);
    Seqs.FilterCounts(blank, order);
    Seqs.FilterIsSubsequence(full, order);
    Seqs.FilterIsSubsequence(blank, order);
    var empty := Seqs.Filter(blank, order);
    assert forall k :: k in empty <==> multiset(empty)[k] > 0;
    Categories(Seqs.Filter(full, order), empty)
  }

  /** What the results panel shows for a finished record. */
  datatype Panel =
    | NothingDetected
    | Cards(categories: Categories)

  /** src/SpeechToText.js:263-265: the "nothing detected" notice appears
      exactly when there are categories and none of them holds a term. */
  function ResultsPanel(order: seq<string>, data: Terms): (r: Panel)
    ensures r.NothingDetected? <==> |order| > 0 && forall k | k in order :: !Populated(data, k)
    ensures r.Cards? ==> r.categories == Partition(order, data)
  {
    var parts := Partition(order, data);
    if |parts.populated| == 0 && |order| > 0 then NothingDetected else Cards(parts)
  }
}
