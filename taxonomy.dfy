/**
 * The STIX type taxonomy of the query layer: the four partitions of object
 * types (domain, cyber-observable, relationship, meta) and the sort tokens
 * each partition's search accepts.
 */
module Taxonomy {

  const AttackFlowTypes: set<string> := {"attack-flow", "attack-action"}

  /** STIX Domain Objects, including the attack-flow extension pair. */
  const SdoTypes: set<string> := {
    "attack-pattern", "campaign", "course-of-action", "grouping", "identity",
    "incident", "indicator", "infrastructure", "intrusion-set", "location",
    "malware", "malware-analysis", "note", "observed-data", "opinion",
    "report", "threat-actor", "sighting", "tool", "vulnerability", "weakness"
  } + AttackFlowTypes

  /** STIX Cyber-observable Objects. */
  const ScoTypes: set<string> := {
    "artifact", "autonomous-system", "bank-account", "bank-card",
    "cryptocurrency-transaction", "cryptocurrency-wallet", "directory",
    "domain-name", "email-addr", "email-message", "file", "ipv4-addr",
    "ipv6-addr", "mac-addr", "mutex", "network-traffic", "phone-number",
    "process", "software", "url", "user-account", "user-agent",
    "windows-registry-key", "x509-certificate"
  }

  /** STIX Meta Objects. */
  const SmoTypes: set<string> := {"marking-definition", "extension-definition", "language-content"}

  const RelationshipType: string := "relationship"

  const ObjectTypes: set<string> := SdoTypes + ScoTypes + {RelationshipType} + SmoTypes

  const SdoSortFields: seq<string> := [
    "name_ascending", "name_descending", "created_ascending", "created_descending",
    "modified_ascending", "modified_descending", "type_ascending", "type_descending"
  ]
  const SroSortFields: seq<string> := [
    "created_ascending", "created_descending", "modified_ascending", "modified_descending"
  ]
  const ScoSortFields: seq<string> := ["type_ascending", "type_descending"]
  const SmoSortFields: seq<string> := [
    "created_ascending", "created_descending", "type_ascending", "type_descending"
  ]

  /**
   * `partition.intersection(requested)` when the caller named some types,
   * the whole partition otherwise. An empty intersection is an empty set,
   * which the searches treat as "match nothing", never as "no filter".
   */
  function RequestedTypes(partition: set<string>, requested: seq<string>): (r: set<string>)
    ensures r <= partition
    ensures requested == [] ==> r == partition
    ensures requested != [] ==> forall t :: t in r <==> t in partition && t in requested
  {
    if requested == [] then partition else set t | t in partition && t in requested
  }
}
