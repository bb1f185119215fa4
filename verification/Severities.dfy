/** How serious a flag or an issue is. */
module Severities {
  datatype Severity = High | Medium | Low
}
