/** The commands that Raft replicates: operations on the lock table. */
module LockCommands {
  type Client = nat
  type Resource = nat

  datatype LockMode = Shared | Exclusive

  /** The op field of a command; an unknown op changes nothing. */
  datatype Command =
    | Acquire(client: Client, resource: Resource, mode: LockMode)
    | Release(client: Client, resource: Resource)
    | ReleaseAll(client: Client)
    | Abort(client: Client)
    | Unknown
}
