/** Control records of the build pool (worker/pool.go:23-52, 216-218, 318-325). */
module Messages {
  import opened Names

  const RUNNERS: nat := 4
  /** Durations and times are in nanoseconds. */
  const MINUTE: int := 60_000_000_000

  datatype Task = Task(installable: string, cores: int, buildInputs: set<string>, inputs: string, outputs: seq<string>)

  /** `sent` is stamped by the bus; `finish` and `features` are empty when absent from the record. */
  datatype Message = Message(
    cores: int, finish: seq<nat>, session: string, instance: string, sequence: nat, state: string,
    sent: int, features: seq<string>, task: Option<Task>, snapshot: string)

  const EMPTY := Message(0, [], "", "", 0, "", 0, [], None, "")

  predicate Fresh(message: Option<Message>, now: int, lease: int) {
    message.Some? && now - message.value.sent < lease && message.value.sent - now < MINUTE
  }

  predicate NameChar(c: char) { 'a' <= c <= 'z' || 'A' <= c <= 'Z' || '0' <= c <= '9' || c == '_' || c == '-' }

  predicate ValidFeature(f: string) { f != "" && forall c :: c in f ==> NameChar(c) }

  predicate ValidFeatures(features: seq<string>) { forall f :: f in features ==> ValidFeature(f) }
}
