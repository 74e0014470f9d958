// Info hashes as the swarm code sees them: twenty bytes that are compared as a
// whole, and of which the first one picks a shard or a worker.
module InfoHashes {
  import opened Base

  datatype InfoHash = InfoHash(first: u8, rest: nat)
}
