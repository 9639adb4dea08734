/**
 * `ScoutResultEncoder.__init__`: the settings every encoder is created with,
 * and the sanitisation of the report name that keeps it a single path
 * segment.
 */
module ResultEncoder {
  import opened JsonValue
  import Strings

  /**
   * `report_name.replace('/', '_').replace('\\', '_')`: both path separators
   * become `_`, every other character stays where it is.
   */
  function SanitizeReportName(name: string): (r: string)
    ensures |r| == |name|
    ensures '/' !in r && '\\' !in r
    ensures forall i :: 0 <= i < |name| ==> r[i] == if name[i] == '/' || name[i] == '\\' then '_' else name[i]
  {
    Strings.Replace(Strings.Replace(name, '/', '_'), '\\', '_')
  }

  /** A name without separators is kept as it is. */
  lemma SanitizeKeepsPlainName(name: string)
    requires '/' !in name && '\\' !in name
    ensures SanitizeReportName(name) == name
  {
    Strings.ReplaceAbsent(name, '/', '_');
    Strings.ReplaceAbsent(name, '\\', '_');
  }

  /** Sanitising twice is sanitising once. */
  lemma SanitizeIdempotent(name: string)
    ensures SanitizeReportName(SanitizeReportName(name)) == SanitizeReportName(name)
  {
    SanitizeKeepsPlainName(SanitizeReportName(name));
  }

  /** The three fields `__init__` sets; `current_time` only feeds the timestamp. */
  datatype Settings = Settings(reportName: Option<string>, reportDir: string, timestamp: string)

  /** Python truthiness of an optional string: present and not empty. */
  predicate Truthy(s: Option<string>) {
    s.Some? && s.value != ""
  }

  /**
   * `ScoutResultEncoder(report_name, report_dir, timestamp)`. The default
   * report directory and the formatted current time are supplied by the
   * caller: the first is a constant of a module that is not part of this
   * model, the second comes from the clock.
   */
  function NewSettings(reportName: Option<string>, reportDir: Option<string>, timestamp: Option<string>,
                       defaultDir: string, now: string): (e: Settings)
    ensures e.reportName.Some? <==> reportName.Some?
    ensures e.reportName.Some? ==> |e.reportName.value| == |reportName.value|
    ensures e.reportName.Some? ==> '/' !in e.reportName.value && '\\' !in e.reportName.value
    ensures e.reportName == if Truthy(reportName) then Some(SanitizeReportName(reportName.value)) else reportName
    ensures e.reportDir == if Truthy(reportDir) then reportDir.value else defaultDir
    ensures e.timestamp == if Truthy(timestamp) then timestamp.value else now
  {
    var name := if Truthy(reportName) then Some(SanitizeReportName(reportName.value)) else reportName;
    Settings(name, if Truthy(reportDir) then reportDir.value else defaultDir, if Truthy(timestamp) then timestamp.value else now)
  }

  /**
   * The report name an encoder keeps is a fixed point of the sanitisation:
   * `store_custom_format` can use it as one path segment as it is.
   */
  lemma SettingsNameStable(reportName: Option<string>, reportDir: Option<string>, timestamp: Option<string>,
                           defaultDir: string, now: string)
    ensures var e := NewSettings(reportName, reportDir, timestamp, defaultDir, now);
      e.reportName.Some? ==> SanitizeReportName(e.reportName.value) == e.reportName.value
  {
    var e := NewSettings(reportName, reportDir, timestamp, defaultDir, now);
    if e.reportName.Some? {
      SanitizeKeepsPlainName(e.reportName.value);
    }
  }
}
