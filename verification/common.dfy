/** Small value helpers shared by every component of the study companion. */
module Common {

  /** A value that may be absent: `undefined` / `null` in the application. */
  datatype Option<+T> = None | Some(value: T)

  /** The topic label every form and view falls back to ("general"). */
  const DefaultTopic: string := "عام"

  /** JavaScript truthiness of a string: only the empty string is falsy. */
  predicate Truthy(s: string) {
    s != ""
  }

  /** JavaScript truthiness of an optional string: absent or empty is falsy. */
  predicate TruthyOpt(o: Option<string>) {
    o.Some? && Truthy(o.value)
  }

  /** `s || fallback` on a possibly absent string. */
  function OrElse(o: Option<string>, fallback: string): (r: string)
    ensures TruthyOpt(o) ==> r == o.value
    ensures !TruthyOpt(o) ==> r == fallback
    ensures Truthy(fallback) ==> Truthy(r)
  {
    match o
    case Some(s) => if s != "" then s else fallback
    case None => fallback
  }

  /** Optional topic defaulted to `DefaultTopic` (`topic || "عام"`). */
  function TopicOrDefault(topic: Option<string>): (r: string)
    ensures Truthy(r)
    ensures TruthyOpt(topic) ==> r == topic.value
    ensures !TruthyOpt(topic) ==> r == DefaultTopic
  {
    OrElse(topic, DefaultTopic)
  }
}
