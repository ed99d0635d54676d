/** The payloads exchanged over the broker by collection jobs, and the broker's append-only log. */
module Events {
  import opened Common
  import opened Text

  const TOPIC_COLLECTION_REQUESTED := "collection.requested"

  /** Go's zero time is None. */
  datatype CollectionRequested = CollectionRequested(
    taskId: string,
    userId: int,
    sourceId: int,
    key: string,
    attempt: int,
    requestedAt: Option<Time>,
    nextAttemptAt: Option<Time>)

  datatype CollectionCompleted = CollectionCompleted(
    taskId: string,
    sourceId: int,
    runId: int,
    fetchedCount: int,
    insertedCount: int,
    duplicatedCount: int,
    completedAt: Time,
    key: string,
    originalRequested: Option<Time>)

  datatype CollectionFailed = CollectionFailed(
    taskId: string,
    sourceId: int,
    attempt: int,
    errorMessage: string,
    failedAt: Time,
    key: string,
    originalRequested: Option<Time>)

  /** One record of the broker log; the constructor is the topic. */
  datatype Entry =
    | RequestedEvent(event: CollectionRequested)
    | CompletedEvent(completed: CollectionCompleted)
    | FailedEvent(failed: CollectionFailed)
    | DeadLetterEvent(event: CollectionRequested)

  datatype DlqItem = DlqItem(event: CollectionRequested, errorMessage: string, createdAt: Time)

  /** A message as the worker reads it; `body` is None when the value is not a JSON event. */
  datatype Message = Message(topic: string, key: string, body: Option<CollectionRequested>)

  predicate ValidEvent(e: CollectionRequested) {
    && !Blank(e.taskId)
    && e.userId > 0
    && e.sourceId > 0
    && !Blank(e.key)
    && e.attempt >= 0
    && e.requestedAt.Some?
  }

  predicate ValidMessage(m: Message) {
    && m.body.Some?
    && (m.topic == "" || m.topic == TOPIC_COLLECTION_REQUESTED)
    && ValidEvent(m.body.value)
    && (m.key == "" || m.key == m.body.value.key)
  }
}
