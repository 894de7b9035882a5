/** Request validation and the search string, shared by the api.js route and the search.js handler. */
module Query {
  import opened Values

  /** The query-string parameters of a search request; a parameter left out of the URL is None. */
  datatype QueryParams = QueryParams(componentType: Option<string>, brand: Option<string>, model: Option<string>)

  const RequiredFieldsError: string := "Component type and brand are required"
  const QuerySuffix: string := " installation guide manual"

  /** Both required parameters are truthy: present and non-empty. */
  predicate HasRequiredFields(p: QueryParams) {
    Truthy(p.componentType) && Truthy(p.brand)
  }

  /**
   * The search string both adapters receive, or None when the request is rejected (the 400 response).
   * A truthy model is placed between the brand and the component type.
   */
  function SearchQuery(p: QueryParams): (r: Option<string>)
    ensures r.Some? <==> HasRequiredFields(p)
    ensures r.Some? ==> |r.value| > |p.brand.value| + |QuerySuffix|
    ensures r.Some? ==> r.value[..|p.brand.value| + 1] == p.brand.value + " "
    ensures r.Some? ==> r.value[|r.value| - |QuerySuffix|..] == QuerySuffix
  {
    if !HasRequiredFields(p) then None
    else if Truthy(p.model) then
      Some(p.brand.value + " " + p.model.value + " " + p.componentType.value + QuerySuffix)
    else
      Some(p.brand.value + " " + p.componentType.value + QuerySuffix)
  }

  /**
   * The two shapes of the query differ only by the model: the query with a model is the one without it
   * with model + " " inserted right after brand + " ".
   */
  lemma QueryModelInserted(componentType: string, brand: string, model: string)
    requires componentType != "" && brand != "" && model != ""
    ensures var without := SearchQuery(QueryParams(Some(componentType), Some(brand), None)).value;
      && SearchQuery(QueryParams(Some(componentType), Some(brand), Some(model))).value
         == without[..|brand| + 1] + model + " " + without[|brand| + 1..]
      && without == brand + " " + componentType + QuerySuffix
  {
    var without := brand + " " + componentType + QuerySuffix;
    assert without[..|brand| + 1] == brand + " ";
    assert without[|brand| + 1..] == componentType + QuerySuffix;
  }

  /** An empty model is falsy: it builds the same query as a missing one. */
  lemma EmptyModelIgnored(componentType: Option<string>, brand: Option<string>)
    ensures SearchQuery(QueryParams(componentType, brand, Some(""))) == SearchQuery(QueryParams(componentType, brand, None))
  {
  }
}
