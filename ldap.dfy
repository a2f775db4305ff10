/** The directory data the equality indexer reads: attribute types, values,
    attribute instances, modifications and entries. */
module Ldap {

  datatype Option<+T> = None | Some(value: T)

  /** An index key: the normalised bytes of one attribute value. */
  type Key = seq<bv8>

  /** An attribute type, identified by its OID; `name` is its primary name when it has one. */
  datatype AttributeType = AttributeType(oid: string, name: Option<string>)
  {
    /** The primary name if there is one, otherwise the OID. */
    function NameOrOid(): string {
      match name
      case Some(n) => n
      case None => oid
    }
  }

  /** An attribute value as the client supplied it. */
  datatype AttributeValue = AttributeValue(raw: seq<bv8>)

  /** One attribute instance: its type, its options (such as `lang-fr`) and its values. */
  datatype Attribute = Attribute(attrType: AttributeType, options: set<string>, values: set<AttributeValue>)
  {
    predicate HasOptions() { options != {} }
    predicate HasValue() { values != {} }
  }

  datatype ModificationType = Add | Delete | Replace | Increment

  /** One modification of a modify request; a `Delete` with no values deletes the whole attribute. */
  datatype Modification = Modification(kind: ModificationType, attribute: Attribute)

  /** An entry, reduced to the instance lists it holds per attribute type. */
  datatype Entry = Entry(attributes: map<AttributeType, seq<Attribute>>)

  /** The instances of type `t` in `e`, or None when the entry has none. */
  function GetAttribute(e: Entry, t: AttributeType): Option<seq<Attribute>> {
    if t in e.attributes then Some(e.attributes[t]) else None
  }
}
