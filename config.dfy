/** The application's fixed configuration (`DEFAULT_CONFIG`), read-only. */
module Config {

  /** The zone every DTSTART/DTEND is stamped with, whatever the host's zone. */
  const TimeZone: string := "America/Chicago"

  const StandardAbbreviation: string := "CST"

  const DaylightAbbreviation: string := "CDT"

  const ProductId: string := "-//C.A.L.E.N.D.A.R.//Legal Deadline Generator//EN"
}
