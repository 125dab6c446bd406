/**
 * `scrapers/base_scraper.py`: the older scraper base class, whose scrapers
 * return one dictionary `{'date': ..., 'items': ...}`; `validate_data`
 * checks only that the two keys are present.
 */
module LegacyBase {
  import opened Text

  /** A dictionary value as far as the check is concerned: `None` or anything else. */
  datatype Value = NoneValue | Present(text: String)

  const RequiredFields: seq<String> := ["date", "items"]

  /** `all(field in data for field in fields)`, field by field. */
  function AllPresent(fields: seq<String>, data: map<String, Value>): (ok: bool)
    ensures ok <==> forall k :: 0 <= k < |fields| ==> fields[k] in data
  {
    if fields == [] then true else fields[0] in data && AllPresent(fields[1..], data)
  }

  /** `validate_data`: true exactly when both `date` and `items` are keys of the dictionary. */
  function ValidateData(data: map<String, Value>): (ok: bool)
    ensures ok <==> "date" in data && "items" in data
  {
    assert RequiredFields[0] == "date" && RequiredFields[1] == "items";
    AllPresent(RequiredFields, data)
  }

  /** The values are never looked at: replacing any of them, `None` included, keeps the verdict. */
  lemma ValuesIgnored(data: map<String, Value>, key: String, v: Value)
    requires key in data
    ensures ValidateData(data[key := v]) == ValidateData(data)
  {
  }

  /** A dictionary whose two values are both `None` still validates. */
  lemma NoneValuesValidate(data: map<String, Value>)
    ensures ValidateData(data["date" := NoneValue]["items" := NoneValue])
  {
  }

  /** Extra keys do not change the verdict: any two dictionaries with the same required keys agree. */
  lemma ExtraKeysIgnored(a: map<String, Value>, b: map<String, Value>)
    requires forall f :: f in RequiredFields ==> (f in a <==> f in b)
    ensures ValidateData(a) == ValidateData(b)
  {
    assert "date" in RequiredFields && "items" in RequiredFields;
  }
}
