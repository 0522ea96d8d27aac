/** app/api/resources/route.ts: creating a resource from a JSON body. Its
    `GET` returns the stored collection unchanged. A body string that is absent
    or empty is "". */
module ResourcesRoute {
  import opened Wrappers
  import opened Entities
  import opened Collections
  import opened Http
  import opened Database

  /** The JSON body of `POST /api/resources`. `availability` is `None` when the
      field is not a JSON number; `currentAssignments` is `None` when absent or
      falsy; `skills` is passed on as given. */
  datatype ResourceBody = ResourceBody(
    resourceName: string,
    resourceType: string,
    availability: Option<real>,
    currentAssignments: Option<seq<string>>,
    skills: Option<seq<string>>)

  const MissingResourceFields := ApiError(BadRequest, "Missing required fields: resourceName, resourceType, availability")

  predicate ValidResourceBody(body: ResourceBody) {
    body.resourceName != "" && body.resourceType != "" && body.availability.Some?
  }

  /** `POST /api/resources`: rejects a body without a name or a type, or whose
      availability is not a number; otherwise appends the resource under
      `freshId` with no current assignments unless given. */
  function ResourcesPost(resources: seq<Resource>, body: ResourceBody, freshId: string): (r: Result<Written<Resource>, ApiError>)
    ensures r.Failure? <==> !ValidResourceBody(body)
    ensures r.Failure? ==> r.error == MissingResourceFields
    ensures r.Success? ==>
      && r.value.items == resources + [r.value.record]
      && r.value.record == Resource(freshId, body.resourceName, body.resourceType, body.availability.value,
                                    body.currentAssignments.GetOr([]), body.skills)
  {
    if !ValidResourceBody(body) then Failure(MissingResourceFields)
    else
      var draft := Resource("", body.resourceName, body.resourceType, body.availability.value,
                            body.currentAssignments.GetOr([]), body.skills);
      var w := CreateResource(resources, draft, freshId);
      assert w.items == resources + [w.record];
      Success(w)
  }

  /** Availability is not range-checked: every number, below 0 or above 100
      included, is stored exactly as sent. */
  lemma AvailabilityStoredVerbatim(resources: seq<Resource>, body: ResourceBody, freshId: string, a: real)
    requires body.resourceName != "" && body.resourceType != ""
    requires body.availability == Some(a)
    ensures ResourcesPost(resources, body, freshId).Success?
    ensures ResourcesPost(resources, body, freshId).value.record.availability == a
  {
  }
}
