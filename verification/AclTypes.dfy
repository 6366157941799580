/** The entities of the access control list (ACL) storage. */
module AclTypes {

  /** Commands an ACL entry can grant.  `All` is the wildcard of the client interface. */
  datatype AclCommand = Add | Delete | Exec | Get | Replace | All

  /** Which nodes of the management tree a stored ACL node is applied to. */
  datatype Destination = ForNode | ForChildren | ForBoth

  /** Capacity of one text field of a certificate. */
  const FIELD_CAPACITY: nat := 64

  /** A bounded 8-bit buffer inside a certificate. */
  type Field = s: string | |s| <= FIELD_CAPACITY

  /** The fields of a certificate that take part in comparisons. */
  datatype CertInfo = CertInfo(
    serialNo: Field,
    fingerprint: Field,
    commonName: Field,
    country: Field,
    locality: Field,
    organization: Field,
    organizationUnit: Field)

  /** The certificate of a command that was created from a server identifier. */
  const EMPTY_CERT: CertInfo := CertInfo("", "", "", "", "", "", "")

  /** What the storage keeps of one command. */
  datatype CommandValue = CommandValue(cert: CertInfo, command: AclCommand)

  /** What the storage keeps of one ACL node. */
  datatype NodeValue = NodeValue(
    uri: string,
    destination: Destination,
    clearFlag: bool,
    commands: seq<CommandValue>)

  /** One `command=server` entry of an ACL text. */
  datatype Entry = Entry(command: AclCommand, server: string)

  /** The management session on whose behalf ACLs are rewritten. */
  datatype Session = Session(server: string, cert: CertInfo)
}
