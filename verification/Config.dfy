/** The pool's configuration and the check that a pool is only built from a usable one. */
module Configs {

  datatype QueueFullPolicy = Blocking | Overwrite | Discard

  datatype Config = Config(
    coreThreads: nat,
    maxThreads: nat,
    maxQueueSize: nat,
    policy: QueueFullPolicy,
    expandFactor: real,
    removeFactor: real,
    taskLimit: nat,
    avgTaskThreshold: real,
    consecutiveIdleCount: nat,
    enableDynamicThread: bool)

  datatype Verdict = Accepted | InvalidArgument(reason: string)

  /** Everything later results need of a configuration: a core worker, room for every core
      slot, room for a task, and with dynamic threads no load that asks for both more and
      fewer threads. */
  ghost predicate Usable(c: Config) {
    && 0 < c.coreThreads <= c.maxThreads
    && 0 < c.maxQueueSize
    && (c.enableDynamicThread ==>
          && 0.0 <= c.removeFactor < c.expandFactor <= 1.0
          && 0 < c.consecutiveIdleCount)
  }

  function ValidateConfigBasic(c: Config): (v: Verdict)
    ensures v.Accepted? <==> Usable(c)
  {
    if c.coreThreads == 0 then
      InvalidArgument("Num of core threads must be GREATER THAN 0")
    else if c.maxThreads < c.coreThreads then
      InvalidArgument("Num of max thread can't be LESS THAN num of core thread")
    else if c.maxQueueSize == 0 then
      InvalidArgument("max task queue size must be GREATER THAN 0")
    else if c.enableDynamicThread && (c.expandFactor <= 0.0 || c.expandFactor > 1.0) then
      InvalidArgument("Expand factor must be in range of (0.0, 1.0]")
    else if c.enableDynamicThread && (c.removeFactor < 0.0 || c.removeFactor >= c.expandFactor) then
      InvalidArgument("Remove factor must be in range of [0.0, expand factor)")
    else if c.enableDynamicThread && c.consecutiveIdleCount == 0 then
      InvalidArgument("Consecutive idle count threshold should be greater than 0")
    else
      Accepted
  }
}
