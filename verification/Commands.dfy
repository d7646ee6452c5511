/** The commands a directive can carry, as `src/lua_policy.rs` builds them. */
module Commands {
  datatype EngineCommand =
    | KvCompress(budget: real)
    | RestoreDefaults
    | Suspend
    | Resume
    | GpuYield(every: nat)
    | GpuOffload(on: bool)
}
