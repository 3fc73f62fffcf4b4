/** The event record that travels from the webhook handler through the queue
    to the action handlers. */
module Events {
  import opened Results

  /** The event kinds `detectEvent` assigns and `processJob` dispatches on. */
  const CreateEvent: string := "createEvent"
  const ModifyEvent: string := "modifyEvent"
  const DeleteEvent: string := "deleteEvent"

  /** `eventInfo`: every field may be absent (`undefined`) in JavaScript. */
  datatype EventInfo = EventInfo(pfrepo: Option<string>, pushuser: Option<string>, reponame: Option<string>,
                                 branch: Option<string>, repourl: Option<string>, kind: Option<string>)

  /** A field that is truthy: present and non-empty. */
  predicate Given(o: Option<string>) {
    o.Some? && o.value != ""
  }

  /** A field as string concatenation shows it: `undefined` when absent. */
  function Shown(o: Option<string>): (r: string)
    ensures o.Some? ==> r == o.value
  {
    if o.Some? then o.value else "undefined"
  }
}
