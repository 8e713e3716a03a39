/** The shared form state (src/context/FormContext.jsx): one plain object per
    wizard section, updated by a shallow merge. */
module FormContext {
  import opened JsValues

  /** `formData`: section name to the section's record. */
  type FormData = map<string, Record>

  /** `useState({ event: {}, venueDetails: {} })`. */
  function InitialFormData(): (r: FormData)
    ensures r.Keys == {"event", "venueDetails"}
    ensures forall s | s in r :: r[s] == map[]
  {
    map["event" := map[], "venueDetails" := map[]]
  }

  /** `{ ...prev[section] }`: an absent section spreads to no keys. */
  function Section(prev: FormData, section: string): Record {
    if section in prev then prev[section] else map[]
  }

  /** `updateFormData(section, data)`: the section becomes its old keys
      overridden by `data`'s keys. */
  function UpdateFormData(prev: FormData, section: string, data: Record): FormData {
    prev[section := Section(prev, section) + data]
  }

  /** The updated section holds every key of `data` with `data`'s value and
      every other old key with its old value. */
  lemma UpdatedSection(prev: FormData, section: string, data: Record)
    ensures section in UpdateFormData(prev, section, data)
    ensures var r := UpdateFormData(prev, section, data)[section];
      forall k :: k in r <==> k in data || k in Section(prev, section)
    ensures var r := UpdateFormData(prev, section, data)[section];
      forall k | k in data :: r[k] == data[k]
    ensures var r := UpdateFormData(prev, section, data)[section];
      forall k | k !in data && k in Section(prev, section) :: r[k] == Section(prev, section)[k]
  {
  }

  /** Every other section is left as it was. */
  lemma OtherSectionsUnchanged(prev: FormData, section: string, data: Record, other: string)
    requires other != section
    ensures other in UpdateFormData(prev, section, data) <==> other in prev
    ensures other in prev ==> UpdateFormData(prev, section, data)[other] == prev[other]
  {
  }

  /** A new section is exactly the data handed in. */
  lemma NewSectionIsData(prev: FormData, section: string, data: Record)
    requires section !in prev
    ensures UpdateFormData(prev, section, data)[section] == data
  {
    assert map[] + data == data;
  }

  /** Applying the same update twice equals applying it once. */
  lemma UpdateIdempotent(prev: FormData, section: string, data: Record)
    ensures UpdateFormData(UpdateFormData(prev, section, data), section, data) == UpdateFormData(prev, section, data)
  {
    var once := UpdateFormData(prev, section, data);
    assert Section(once, section) + data == Section(prev, section) + data;
  }
}
