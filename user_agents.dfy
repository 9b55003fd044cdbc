/**
 * `extract_user_agent` of Code/main.py: the value of every `user-agent:`
 * line of a snapshot, in line order. Unlike the blocked-crawler extractor it
 * matches the prefix case-insensitively on the raw line (no stripping first)
 * and keeps the original case of the value.
 */
module UserAgents {
  import opened Text
  import opened Seqs

  /** `line.lower().startswith('user-agent:')`. */
  predicate IsUserAgentLine(line: string) {
    StartsWith(Lower(line), "user-agent:")
  }

  /** A matching line has its first colon right after the ten letters of `user-agent`. */
  lemma ColonAfterPrefix(line: string)
    requires IsUserAgentLine(line)
    ensures line[10] == ':'
    ensures ':' !in line[..10]
  {
    assert Lower(line)[10] == "user-agent:"[10];
    forall k | 0 <= k < 10 ensures line[k] != ':' {
      assert Lower(line)[k] == "user-agent:"[k];
    }
  }

  /** `line.split(':', 1)[1].strip()`. */
  function AgentValue(line: string): string
    requires IsUserAgentLine(line)
  {
    ColonAfterPrefix(line);
    Strip(AfterFirstColon(line))
  }

  /** The values of the matching lines of `lines`, in order. */
  function UserAgentsOf(lines: seq<string>): seq<string> {
    FilterMap(IsUserAgentLine, AgentValue, lines)
  }

  /** `extract_user_agent`: appends the value of each matching line in turn. */
  method ExtractUserAgent(robotsTxt: string) returns (userAgents: seq<string>)
    ensures userAgents == UserAgentsOf(SplitLines(robotsTxt))
  {
    var lines := SplitLines(robotsTxt);
    userAgents := [];
    for i := 0 to |lines|
      invariant userAgents == UserAgentsOf(lines[..i])
    {
      assert lines[..i + 1][..i] == lines[..i];
      var line := lines[i];
      if StartsWith(Lower(line), "user-agent:") {
        userAgents := userAgents + [AgentValue(line)];
      }
    }
    assert lines[..|lines|] == lines;
  }

  /**
   * The result has one entry per matching line, in line order: entry `k`
   * is the value of the `k`-th matching line, and every matching line has
   * an entry.
   */
  lemma UserAgentsByPosition(lines: seq<string>)
    ensures |UserAgentsOf(lines)| == |Positions(IsUserAgentLine, lines)|
    ensures StrictlyIncreasing(Positions(IsUserAgentLine, lines))
    ensures forall i :: 0 <= i < |lines| ==> (i in Positions(IsUserAgentLine, lines) <==> IsUserAgentLine(lines[i]))
    ensures forall k :: 0 <= k < |UserAgentsOf(lines)| ==>
      var i := Positions(IsUserAgentLine, lines)[k];
      i < |lines| && IsUserAgentLine(lines[i]) && UserAgentsOf(lines)[k] == AgentValue(lines[i])
  {
    PositionsExact(IsUserAgentLine, lines);
    FilterMapAtPositions(IsUserAgentLine, AgentValue, lines);
  }

  /** The number of agents is the number of matching lines. */
  lemma UserAgentCount(lines: seq<string>)
    ensures |UserAgentsOf(lines)| == |Filter(IsUserAgentLine, lines)|
  {
    FilterMapLength(IsUserAgentLine, AgentValue, lines);
  }

  /** A line with whitespace before `user-agent:` is not matched. */
  lemma LeadingSpaceNotMatched(line: string)
    requires line != [] && IsSpace(line[0])
    ensures !IsUserAgentLine(line)
  {
    assert Lower(line)[0] == line[0];
  }

  /** The value is the text after the `user-agent:` prefix, stripped, in its original case. */
  lemma AgentValueKeepsCase(line: string)
    requires IsUserAgentLine(line)
    ensures AgentValue(line) == Strip(line[11..])
  {
    ColonAfterPrefix(line);
  }
}
