/** The sort and filter fields of the collections, told by field instead of by query. */
module QueryFields {
  import opened QueryCursor

  /** The queries whose collections can be sorted by a field. */
  function QueriesSortedBy(field: string): set<string> {
    match field
    case "id" => {"ListInstances", "ListInstanceSessions", "ListInstanceMessages", "ListChats", "ListInstanceChats",
       "ListContacts", "ListInstanceContacts", "ListLabels", "ListInstanceLabels", "ListInstanceGroups",
       "ListWorkerJobs", "ListWebhookSubscriptions", "ListWebhookDeliveries", "QueryAuditRecords"}
    case "status" => {"ListInstances", "ListInstanceSessions", "ListInstanceMessages", "ListChats", "ListInstanceChats",
       "ListContacts", "ListInstanceContacts", "ListLabels", "ListInstanceLabels", "ListInstanceGroups",
       "ListWorkerJobs", "ListWebhookSubscriptions", "ListWebhookDeliveries", "QueryAuditRecords"}
    case "createdAt" => {"ListInstances", "ListInstanceSessions", "ListInstanceMessages", "ListWorkerJobs", "ListWebhookDeliveries",
       "QueryAuditRecords"}
    case "updatedAt" => {"ListInstances", "ListInstanceSessions", "ListInstanceMessages", "ListChats", "ListInstanceChats",
       "ListContacts", "ListInstanceContacts", "ListLabels", "ListInstanceLabels", "ListInstanceGroups",
       "ListWorkerJobs", "ListWebhookSubscriptions", "ListWebhookDeliveries"}
    case "displayName" => {"ListInstances", "ListChats", "ListInstanceChats", "ListContacts", "ListInstanceContacts"}
    case "type" => {"ListInstanceMessages", "ListEvents"}
    case "direction" => {"ListInstanceMessages"}
    case "name" => {"ListLabels", "ListInstanceLabels"}
    case "subject" => {"ListInstanceGroups"}
    case "memberRef" => {"ListGroupMembers"}
    case "role" => {"ListGroupMembers"}
    case "joinedAt" => {"ListGroupMembers"}
    case "timestamp" => {"ListEvents"}
    case "source" => {"ListEvents"}
    case "workType" => {"ListWorkerJobs"}
    case "category" => {"QueryAuditRecords"}
    case _ => {}
  }

  lemma {:induction false} SortById(queryName: string)
    ensures "id" in AllowedSortFields(queryName) <==> queryName in QueriesSortedBy("id")
  {
  }

  lemma {:induction false} SortByStatus(queryName: string)
    ensures "status" in AllowedSortFields(queryName) <==> queryName in QueriesSortedBy("status")
  {
  }

  lemma {:induction false} SortByCreatedAt(queryName: string)
    ensures "createdAt" in AllowedSortFields(queryName) <==> queryName in QueriesSortedBy("createdAt")
  {
  }

  lemma {:induction false} SortByUpdatedAt(queryName: string)
    ensures "updatedAt" in AllowedSortFields(queryName) <==> queryName in QueriesSortedBy("updatedAt")
  {
  }

  lemma {:induction false} SortByDisplayName(queryName: string)
    ensures "displayName" in AllowedSortFields(queryName) <==> queryName in QueriesSortedBy("displayName")
  {
  }

  lemma {:induction false} SortByType(queryName: string)
    ensures "type" in AllowedSortFields(queryName) <==> queryName in QueriesSortedBy("type")
  {
  }

  lemma {:induction false} SortByDirection(queryName: string)
    ensures "direction" in AllowedSortFields(queryName) <==> queryName in QueriesSortedBy("direction")
  {
  }

  lemma {:induction false} SortByName(queryName: string)
    ensures "name" in AllowedSortFields(queryName) <==> queryName in QueriesSortedBy("name")
  {
  }

  lemma {:induction false} SortBySubject(queryName: string)
    ensures "subject" in AllowedSortFields(queryName) <==> queryName in QueriesSortedBy("subject")
  {
  }

  lemma {:induction false} SortByMemberRef(queryName: string)
    ensures "memberRef" in AllowedSortFields(queryName) <==> queryName in QueriesSortedBy("memberRef")
  {
  }

  lemma {:induction false} SortByRole(queryName: string)
    ensures "role" in AllowedSortFields(queryName) <==> queryName in QueriesSortedBy("role")
  {
  }

  lemma {:induction false} SortByJoinedAt(queryName: string)
    ensures "joinedAt" in AllowedSortFields(queryName) <==> queryName in QueriesSortedBy("joinedAt")
  {
  }

  lemma {:induction false} SortByTimestamp(queryName: string)
    ensures "timestamp" in AllowedSortFields(queryName) <==> queryName in QueriesSortedBy("timestamp")
  {
  }

  lemma {:induction false} SortBySource(queryName: string)
    ensures "source" in AllowedSortFields(queryName) <==> queryName in QueriesSortedBy("source")
  {
  }

  lemma {:induction false} SortByWorkType(queryName: string)
    ensures "workType" in AllowedSortFields(queryName) <==> queryName in QueriesSortedBy("workType")
  {
  }

  lemma {:induction false} SortByCategory(queryName: string)
    ensures "category" in AllowedSortFields(queryName) <==> queryName in QueriesSortedBy("category")
  {
  }

  predicate IsSortableField(field: string) {
    field == "id" || field == "status" || field == "createdAt" || field == "updatedAt" || field == "displayName" ||
    field == "type" || field == "direction" || field == "name" || field == "subject" || field == "memberRef" ||
    field == "role" || field == "joinedAt" || field == "timestamp" || field == "source" || field == "workType" ||
    field == "category"
  }

  lemma {:induction false} KnownSortFields(queryName: string, field: string)
    requires field in AllowedSortFields(queryName)
    ensures IsSortableField(field)
  {
    hide AllowedSortFields, IsSortableField;
    if queryName in {"ListInstances", "ListInstanceSessions", "ListInstanceMessages", "ListChats", "ListInstanceChats", "ListContacts",
                             "ListInstanceContacts", "ListLabels"} {
      KnownInFirst(queryName, field);
    } else {
      KnownInRest(queryName, field);
    }
  }

  lemma {:induction false} KnownInFirst(queryName: string, field: string)
    requires queryName in {"ListInstances", "ListInstanceSessions", "ListInstanceMessages", "ListChats", "ListInstanceChats", "ListContacts",
                             "ListInstanceContacts", "ListLabels"}
    requires field in AllowedSortFields(queryName)
    ensures IsSortableField(field)
  {
  }

  lemma {:induction false} KnownInRest(queryName: string, field: string)
    requires queryName !in {"ListInstances", "ListInstanceSessions", "ListInstanceMessages", "ListChats", "ListInstanceChats", "ListContacts",
                             "ListInstanceContacts", "ListLabels"}
    requires field in AllowedSortFields(queryName)
    ensures IsSortableField(field)
  {
  }

  lemma {:induction false} UnknownSortField(field: string)
    requires !IsSortableField(field)
    ensures QueriesSortedBy(field) == {}
  {
  }

  lemma {:induction false} SortFieldsIff(queryName: string, field: string)
    ensures field in AllowedSortFields(queryName) <==> queryName in QueriesSortedBy(field)
  {
    hide AllowedSortFields, QueriesSortedBy, IsSortableField;
    if field in AllowedSortFields(queryName) {
      KnownSortFields(queryName, field);
    }
    if !IsSortableField(field) {
      UnknownSortField(field);
    }
    EachSortField(queryName, field);
  }

  lemma {:induction false} EachSortField(queryName: string, field: string)
    ensures IsSortableField(field) ==> (field in AllowedSortFields(queryName) <==> queryName in QueriesSortedBy(field))
  {
    hide AllowedSortFields, QueriesSortedBy;
    if field == "id" { SortById(queryName); }
    if field == "status" { SortByStatus(queryName); }
    if field == "createdAt" { SortByCreatedAt(queryName); }
    if field == "updatedAt" { SortByUpdatedAt(queryName); }
    if field == "displayName" { SortByDisplayName(queryName); }
    if field == "type" { SortByType(queryName); }
    if field == "direction" { SortByDirection(queryName); }
    if field == "name" { SortByName(queryName); }
    if field == "subject" { SortBySubject(queryName); }
    if field == "memberRef" { SortByMemberRef(queryName); }
    if field == "role" { SortByRole(queryName); }
    if field == "joinedAt" { SortByJoinedAt(queryName); }
    if field == "timestamp" { SortByTimestamp(queryName); }
    if field == "source" { SortBySource(queryName); }
    if field == "workType" { SortByWorkType(queryName); }
    if field == "category" { SortByCategory(queryName); }
  }

  /** The queries whose collections can be filtered by a field. */
  function QueriesFilteredBy(field: string): set<string> {
    match field
    case "status" => {"ListInstances", "ListInstanceSessions", "ListInstanceMessages", "ListChats", "ListInstanceChats",
       "ListContacts", "ListInstanceContacts", "ListLabels", "ListInstanceLabels", "ListInstanceGroups",
       "ListGroupMembers", "ListWorkerJobs", "ListWebhookSubscriptions", "ListWebhookDeliveries", "QueryAuditRecords"}
    case "direction" => {"ListInstanceMessages"}
    case "type" => {"ListInstanceMessages", "ListEvents"}
    case "labelId" => {"ListChats", "ListInstanceChats"}
    case "role" => {"ListGroupMembers"}
    case "resourceRef" => {"ListEvents"}
    case "source" => {"ListEvents"}
    case "ownerContext" => {"ListWorkerJobs"}
    case "workType" => {"ListWorkerJobs"}
    case "failureCategory" => {"ListWebhookDeliveries"}
    case "reasonCode" => {"ListWebhookDeliveries"}
    case "webhookId" => {"ListWebhookDeliveries"}
    case "category" => {"QueryAuditRecords"}
    case _ => {}
  }

  lemma {:induction false} FilterByStatus(queryName: string)
    ensures "status" in AllowedFilterFields(queryName) <==> queryName in QueriesFilteredBy("status")
  {
  }

  lemma {:induction false} FilterByDirection(queryName: string)
    ensures "direction" in AllowedFilterFields(queryName) <==> queryName in QueriesFilteredBy("direction")
  {
  }

  lemma {:induction false} FilterByType(queryName: string)
    ensures "type" in AllowedFilterFields(queryName) <==> queryName in QueriesFilteredBy("type")
  {
  }

  lemma {:induction false} FilterByLabelId(queryName: string)
    ensures "labelId" in AllowedFilterFields(queryName) <==> queryName in QueriesFilteredBy("labelId")
  {
  }

  lemma {:induction false} FilterByRole(queryName: string)
    ensures "role" in AllowedFilterFields(queryName) <==> queryName in QueriesFilteredBy("role")
  {
  }

  lemma {:induction false} FilterByResourceRef(queryName: string)
    ensures "resourceRef" in AllowedFilterFields(queryName) <==> queryName in QueriesFilteredBy("resourceRef")
  {
  }

  lemma {:induction false} FilterBySource(queryName: string)
    ensures "source" in AllowedFilterFields(queryName) <==> queryName in QueriesFilteredBy("source")
  {
  }

  lemma {:induction false} FilterByOwnerContext(queryName: string)
    ensures "ownerContext" in AllowedFilterFields(queryName) <==> queryName in QueriesFilteredBy("ownerContext")
  {
  }

  lemma {:induction false} FilterByWorkType(queryName: string)
    ensures "workType" in AllowedFilterFields(queryName) <==> queryName in QueriesFilteredBy("workType")
  {
  }

  lemma {:induction false} FilterByFailureCategory(queryName: string)
    ensures "failureCategory" in AllowedFilterFields(queryName) <==> queryName in QueriesFilteredBy("failureCategory")
  {
  }

  lemma {:induction false} FilterByReasonCode(queryName: string)
    ensures "reasonCode" in AllowedFilterFields(queryName) <==> queryName in QueriesFilteredBy("reasonCode")
  {
  }

  lemma {:induction false} FilterByWebhookId(queryName: string)
    ensures "webhookId" in AllowedFilterFields(queryName) <==> queryName in QueriesFilteredBy("webhookId")
  {
  }

  lemma {:induction false} FilterByCategory(queryName: string)
    ensures "category" in AllowedFilterFields(queryName) <==> queryName in QueriesFilteredBy("category")
  {
  }

  predicate IsFilterableField(field: string) {
    field == "status" || field == "direction" || field == "type" || field == "labelId" || field == "role" ||
    field == "resourceRef" || field == "source" || field == "ownerContext" || field == "workType" ||
    field == "failureCategory" || field == "reasonCode" || field == "webhookId" || field == "category"
  }

  lemma {:induction false} KnownFilterFields(queryName: string, field: string)
    requires field in AllowedFilterFields(queryName)
    ensures IsFilterableField(field)
  {
  }

  lemma {:induction false} UnknownFilterField(field: string)
    requires !IsFilterableField(field)
    ensures QueriesFilteredBy(field) == {}
  {
  }

  lemma {:induction false} FilterFieldsIff(queryName: string, field: string)
    ensures field in AllowedFilterFields(queryName) <==> queryName in QueriesFilteredBy(field)
  {
    hide AllowedFilterFields, QueriesFilteredBy, IsFilterableField;
    if field in AllowedFilterFields(queryName) {
      KnownFilterFields(queryName, field);
    }
    if !IsFilterableField(field) {
      UnknownFilterField(field);
    }
    EachFilterField(queryName, field);
  }

  lemma {:induction false} EachFilterField(queryName: string, field: string)
    ensures IsFilterableField(field) ==> (field in AllowedFilterFields(queryName) <==> queryName in QueriesFilteredBy(field))
  {
    hide AllowedFilterFields, QueriesFilteredBy;
    if field == "status" { FilterByStatus(queryName); }
    if field == "direction" { FilterByDirection(queryName); }
    if field == "type" { FilterByType(queryName); }
    if field == "labelId" { FilterByLabelId(queryName); }
    if field == "role" { FilterByRole(queryName); }
    if field == "resourceRef" { FilterByResourceRef(queryName); }
    if field == "source" { FilterBySource(queryName); }
    if field == "ownerContext" { FilterByOwnerContext(queryName); }
    if field == "workType" { FilterByWorkType(queryName); }
    if field == "failureCategory" { FilterByFailureCategory(queryName); }
    if field == "reasonCode" { FilterByReasonCode(queryName); }
    if field == "webhookId" { FilterByWebhookId(queryName); }
    if field == "category" { FilterByCategory(queryName); }
  }
}
