/**
 The older, Flask-based exporter, which writes the exposition text itself:
 `get_summary` renders the summary object as one line per key under a version
 line, and `convert_json` renders a one-label object as one sample line per key.
 */
module Legacy {
  import opened Base
  import opened Text
  import opened Json
  import Summary

  const Newline := '\n'

  /** `"%s" % version` for the module's `version = 0.1`. */
  const Version := "0.1"
  const VersionLine := "pihole_exporter_version " + Version

  // ---------------------------------------------------------------------------
  // convert_json

  /** `pihole_<name>{<option>="<key>"} <value>`, the sample line for one key (without its newline). */
  function Sample(name: string, option: string, key: string, value: string): string {
    Summary.MetricPrefix + name + "{" + option + "=\"" + key + "\"} " + value
  }

  /** The sample lines for the members of `data`, in key order. */
  function Samples(data: Fields, name: string, option: string): (lines: seq<string>)
    ensures |lines| == |data|
    ensures forall i :: 0 <= i < |data| ==> lines[i] == Sample(name, option, data[i].0, data[i].1.text)
  {
    if |data| == 0 then [] else [Sample(name, option, data[0].0, data[0].1.text)] + Samples(data[1..], name, option)
  }

  /** `convert_json(json_data, name, option)`: the text the loop accumulates. */
  function ConvertJson(data: Fields, name: string, option: string): (out: string)
    ensures out == "" <==> |data| == 0
  {
    if |data| == 0 then ""
    else Sample(name, option, data[0].0, data[0].1.text) + [Newline] + ConvertJson(data[1..], name, option)
  }

  /** Rendering a concatenation is rendering each part, one after the other. */
  lemma {:induction false} ConvertJsonAppend(a: Fields, b: Fields, name: string, option: string)
    ensures ConvertJson(a + b, name, option) == ConvertJson(a, name, option) + ConvertJson(b, name, option)
    decreases |a|
  {
    if |a| == 0 {
      assert a + b == b;
    } else {
      assert (a + b)[1..] == a[1..] + b;
      ConvertJsonAppend(a[1..], b, name, option);
    }
  }

  /** The output is the sample lines, each ended by a newline. */
  lemma {:induction false} ConvertJsonTerminated(data: Fields, name: string, option: string)
    ensures ConvertJson(data, name, option) == Terminated(Samples(data, name, option), Newline)
    decreases |data|
  {
    if |data| > 0 {
      ConvertJsonTerminated(data[1..], name, option);
      assert Samples(data, name, option)[1..] == Samples(data[1..], name, option);
    }
  }

  /** Nothing in the rendered pieces can break a sample line in two. */
  predicate NoLineBreaks(data: Fields, name: string, option: string) {
    Newline !in name && Newline !in option
    && forall i :: 0 <= i < |data| ==> Newline !in data[i].0 && Newline !in data[i].1.text
  }

  lemma SampleHasNoLineBreak(name: string, option: string, key: string, value: string)
    requires Newline !in name && Newline !in option && Newline !in key && Newline !in value
    ensures Newline !in Sample(name, option, key, value)
  {
  }

  /**
   Read back line by line, the output has exactly one line per key, in key
   order, each of the sample form, and nothing after the last newline.
   */
  lemma ConvertJsonLines(data: Fields, name: string, option: string)
    requires NoLineBreaks(data, name, option)
    ensures var lines := Split(ConvertJson(data, name, option), Newline);
            |lines| == |data| + 1 && lines[|data|] == ""
            && forall i :: 0 <= i < |data| ==> lines[i] == Sample(name, option, data[i].0, data[i].1.text)
  {
    var samples := Samples(data, name, option);
    forall i | 0 <= i < |samples| ensures Newline !in samples[i] {
      SampleHasNoLineBreak(name, option, data[i].0, data[i].1.text);
    }
    ConvertJsonTerminated(data, name, option);
    SplitTerminated(samples, Newline);
  }

  /** Reads the label value and the value text back from a sample line of metric `name`. */
  function ParseSample(line: string, name: string, option: string): Option<(string, string)>
  {
    var head := Summary.MetricPrefix + name + "{" + option + "=\"";
    if !StartsWith(line, head) then None
    else
      var rest := line[|head|..];
      if '"' !in rest then None
      else
        var k := IndexOf(rest, '"');
        if StartsWith(rest[k..], "\"} ") then Some((rest[..k], rest[k + 3..])) else None
  }

  /** A sample line gives back its key and value, as long as the key has no double quote. */
  lemma SampleRoundTrip(name: string, option: string, key: string, value: string)
    requires '"' !in key
    ensures ParseSample(Sample(name, option, key, value), name, option) == Some((key, value))
  {
    var head := Summary.MetricPrefix + name + "{" + option + "=\"";
    var line := Sample(name, option, key, value);
    assert line == head + (key + "\"} " + value);
    assert line[..|head|] == head;
    var rest := line[|head|..];
    assert rest == key + "\"} " + value;
    assert rest[|key|] == '"';
    assert rest[..|key|] == key;
    var k := IndexOf(rest, '"');
    assert k == |key|;
    assert rest[k..][..3] == "\"} ";
    assert rest[k + 3..] == value;
  }

  // ---------------------------------------------------------------------------
  // get_summary

  /** The line for one summary member; `status` is rendered as 1 for 'enabled' and 0 otherwise. */
  function SummaryLine(key: string, v: Value): (line: string)
    ensures key == Summary.StatusKey ==>
              (line == "pihole_status 1" <==> Summary.IsEnabled(v))
              && (line == "pihole_status 0" <==> !Summary.IsEnabled(v))
    ensures key != Summary.StatusKey ==> line == Summary.MetricPrefix + key + " " + v.text
  {
    if key != Summary.StatusKey then Summary.MetricPrefix + key + " " + v.text
    else if Summary.IsEnabled(v) then "pihole_status 1"
    else "pihole_status 0"
  }

  function SummaryLines(raw: Fields): (lines: seq<string>)
    ensures |lines| == |raw|
    ensures forall i :: 0 <= i < |raw| ==> lines[i] == SummaryLine(raw[i].0, raw[i].1)
  {
    if |raw| == 0 then [] else [SummaryLine(raw[0].0, raw[0].1)] + SummaryLines(raw[1..])
  }

  /** The summary loop's text, one newline-ended line per member. */
  function SummaryBody(raw: Fields): (out: string)
    ensures out == "" <==> |raw| == 0
  {
    if |raw| == 0 then ""
    else SummaryLine(raw[0].0, raw[0].1) + [Newline] + SummaryBody(raw[1..])
  }

  /** `get_summary(url)` on the already fetched summary object. */
  function GetSummary(raw: Fields): (out: string)
    ensures StartsWith(out, "pihole_exporter_version 0.1\n")
  {
    var header := VersionLine + [Newline];
    assert (header + SummaryBody(raw))[..|header|] == header;
    header + SummaryBody(raw)
  }

  lemma {:induction false} SummaryBodyTerminated(raw: Fields)
    ensures SummaryBody(raw) == Terminated(SummaryLines(raw), Newline)
    decreases |raw|
  {
    if |raw| > 0 {
      SummaryBodyTerminated(raw[1..]);
      assert SummaryLines(raw)[1..] == SummaryLines(raw[1..]);
    }
  }

  /**
   Read back line by line, the summary text is the version line and then one
   line per member, in key order: 1 + (number of keys) lines.
   */
  lemma GetSummaryLines(raw: Fields)
    requires forall i :: 0 <= i < |raw| ==>
               Newline !in raw[i].0 && (raw[i].0 != Summary.StatusKey ==> Newline !in raw[i].1.text)
    ensures var lines := Split(GetSummary(raw), Newline);
            |lines| == |raw| + 2 && lines[0] == VersionLine && lines[|raw| + 1] == ""
            && forall i :: 0 <= i < |raw| ==> lines[i + 1] == SummaryLine(raw[i].0, raw[i].1)
  {
    var lines := [VersionLine] + SummaryLines(raw);
    forall i | 0 <= i < |lines| ensures Newline !in lines[i] {
      if i > 0 {
        var key := raw[i - 1].0;
        var v := raw[i - 1].1;
        assert lines[i] == SummaryLine(key, v);
        if key != Summary.StatusKey {
          assert lines[i] == Summary.MetricPrefix + key + " " + v.text;
        }
      }
    }
    SummaryBodyTerminated(raw);
    assert GetSummary(raw) == Terminated(lines, Newline) by {
      assert lines[1..] == SummaryLines(raw);
    }
    SplitTerminated(lines, Newline);
  }

  /** Reads the key and value text back from a non-status summary line. */
  function ParseSummaryLine(line: string): Option<(string, string)>
  {
    if !StartsWith(line, Summary.MetricPrefix) then None
    else
      var rest := line[|Summary.MetricPrefix|..];
      if ' ' !in rest then None
      else
        var k := IndexOf(rest, ' ');
        Some((rest[..k], rest[k + 1..]))
  }

  /** A summary line gives back its key and value, as long as the key has no space. */
  lemma SummaryLineRoundTrip(key: string, v: Value)
    requires ' ' !in key
    ensures ParseSummaryLine(SummaryLine(key, v)) ==
            if key == Summary.StatusKey then Some((key, if Summary.IsEnabled(v) then "1" else "0"))
            else Some((key, v.text))
  {
    var line := SummaryLine(key, v);
    var value := if key != Summary.StatusKey then v.text else if Summary.IsEnabled(v) then "1" else "0";
    assert line == Summary.MetricPrefix + key + " " + value;
    assert line[..|Summary.MetricPrefix|] == Summary.MetricPrefix;
    var rest := line[|Summary.MetricPrefix|..];
    assert rest == key + " " + value;
    assert rest[|key|] == ' ';
    assert rest[..|key|] == key;
    var k := IndexOf(rest, ' ');
    assert k == |key|;
    assert rest[k + 1..] == value;
  }
}
