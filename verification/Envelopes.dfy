/** Decoded agent messages and the records that carry them. JSON decoding is not part of
    the model: a value or payload that does not decode is one of the cases. */
module Envelopes {
  import opened Results
  import opened NodeIds

  datatype Payload =
    | Announce(agentID: string, agentName: string, action: string, groupName: string)
    | Request(taskID: string, requestText: string, targetAgent: string)
    | Response(taskID: string, responseText: string, inReplyTo: string)
    | TaskStatus(taskID: string, status: string)
    | SkillRequest(skillName: string, parameters: string)
    | SkillResponse(skillName: string, result: string, inReplyTo: string)
    | MemoryEntry(key: string, value: string, references: seq<string>)
    | Trace(spanID: string, operation: string, durationMs: real)
    | Audit(action: string, resource: string, outcome: string)
    | Roster(agentID: string, skills: seq<string>, version: int, action: string)
    | Orchestrator(action: string, fromAgent: string, toAgent: string, taskID: string)
    | HumanFeedback(cycleID: string, feedbackType: string, comment: string, impact: real, relevance: real,
                    valueContribution: real, reviewerID: string)
    | UnknownType
    | BadPayload

  /** The timestamp is its text in the format the roster handler writes. */
  datatype Envelope = Envelope(correlationID: string, senderID: string, timestamp: string, payload: Payload)

  datatype TopicPartition = TopicPartition(topic: string, partition: int)

  /** A record whose value is no envelope at all carries none. */
  datatype Record = Record(source: Source, value: Option<Envelope>) {
    function Tp(): TopicPartition {
      TopicPartition(source.topic, source.partition)
    }
  }
}
