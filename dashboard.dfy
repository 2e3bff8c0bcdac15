/** The stateful part of the DailyParameters component: the pieces of React
    state it owns (the loaded schema, the form data, whether the overwrite
    dialog is open), the collaborators' observable effects (how often the
    refresh callback ran, which toasts were shown, which payloads were
    posted), and the handlers that change them. Each network request is
    replaced by the response it resolves to, passed in as an argument. */
module Dashboard {
  import opened Form

  datatype Variant = Default | Destructive

  /** A notification handed to the toast sink. */
  datatype Toast = Toast(variant: Variant, title: string, description: string)

  /** The resolved answer of the schema request. */
  datatype GetResponse = GetResponse(status: int, data: seq<Parameter>)

  /** What `handleUpdate` hands to `handleSubmit`. */
  datatype Submission = Submission(date: Date, data: seq<PostedEntry>)

  /** The body of a write request. */
  datatype Payload = Payload(date: Date, data: seq<PostedEntry>, overwrite: bool)

  const SuccessToast := Toast(Default, "Success", "Parameter added successfully")
  const ErrorToast := Toast(Destructive, "Error", "Failed to add parameters")
  const NotOverwrittenToast := Toast(Default, "Ok!", "Data not overwritten")

  /** How many of the write responses were successes (status 200). */
  function CountOk(statuses: seq<int>): (n: nat)
    ensures n == multiset(statuses)[200]
  {
    if statuses == [] then 0
    else
      var init := statuses[..|statuses| - 1];
      assert statuses == init + [statuses[|statuses| - 1]];
      CountOk(init) + (if statuses[|statuses| - 1] == 200 then 1 else 0)
  }

  class DailyParameters {
    var parameters: seq<Parameter>
    var formData: FormData
    var modalOpen: bool
    /** Number of calls of the context's refresh callback. */
    var refreshCount: nat
    /** Every toast shown, oldest first. */
    var toasts: seq<Toast>
    /** Every write request issued, oldest first. */
    var posts: seq<Payload>
    /** The status each write request resolved to, in the order of `posts`. */
    ghost var responses: seq<int>
    /** JavaScript's `Number(v).toString()`, which is not modelled. */
    const numberToString: Value -> string

    /** The form always has exactly the ids of the last loaded schema, in
        its order, and the refresh callback has run once per successful
        write. */
    ghost predicate Valid()
      reads this
    {
      && EntryIds(formData.data) == ParamIds(parameters)
      && |responses| == |posts|
      && refreshCount == CountOk(responses)
    }

    /** The component as first rendered on day `today`. */
    constructor (today: Date, numberToString: Value -> string)
      ensures Valid()
      ensures parameters == [] && formData == FormData(today, [])
      ensures !modalOpen && refreshCount == 0 && toasts == [] && posts == []
      ensures this.numberToString == numberToString
    {
      parameters := [];
      formData := FormData(today, []);
      modalOpen := false;
      refreshCount := 0;
      toasts := [];
      posts := [];
      responses := [];
      this.numberToString := numberToString;
    }

    /** Loading the schema: a non-200 response changes nothing; a 200
        response stores the definitions and rebuilds the entries from them,
        keeping the selected date. */
    method FetchParameters(response: GetResponse)
      requires Valid()
      modifies this`parameters, this`formData
      ensures Valid()
      ensures response.status != 200 ==> parameters == old(parameters) && formData == old(formData)
      ensures response.status == 200 ==>
                parameters == response.data
                && formData == FormData(old(formData.date), InitialEntries(response.data))
    {
      if response.status != 200 {
        return;
      }
      parameters := response.data;
      var initialFormData := InitialEntries(response.data);
      LoadedIds(response.data);
      formData := formData.(data := initialFormData);
    }

    /** Posting one write request and reacting to its status: 400 opens the
        overwrite dialog and nothing else; 200 runs the refresh callback once
        and shows the success toast; any other status shows the error toast. */
    method HandleSubmit(dataToPost: Submission, overwrite: bool, status: int)
      requires Valid()
      modifies this`posts, this`responses, this`modalOpen, this`refreshCount, this`toasts
      ensures Valid()
      ensures posts == old(posts) + [Payload(dataToPost.date, dataToPost.data, overwrite)]
      ensures status == 400 ==>
                modalOpen && refreshCount == old(refreshCount) && toasts == old(toasts)
      ensures status == 200 ==>
                modalOpen == old(modalOpen) && refreshCount == old(refreshCount) + 1
                && toasts == old(toasts) + [SuccessToast]
      ensures status != 200 && status != 400 ==>
                modalOpen == old(modalOpen) && refreshCount == old(refreshCount)
                && toasts == old(toasts) + [ErrorToast]
    {
      posts := posts + [Payload(dataToPost.date, dataToPost.data, overwrite)];
      responses := responses + [status];
      if status == 400 {
        modalOpen := true;
        return;
      }
      if status == 200 {
        refreshCount := refreshCount + 1;
      }
      toasts := toasts + [if status == 200 then SuccessToast else ErrorToast];
    }

    /** The payload data built from the current form: every entry normalised
        by the type of its loaded definition. */
    function MappedData(): (r: seq<PostedEntry>)
      reads this
      ensures PostedIds(r) == EntryIds(formData.data)
      ensures forall i :: 0 <= i < |r| ==>
                r[i].value == Coerce(FindParameter(parameters, formData.data[i].id),
                                     formData.data[i].value, numberToString)
      ensures Valid() ==> forall i :: 0 <= i < |formData.data| ==>
                FindParameter(parameters, formData.data[i].id).Some?
      ensures Valid() && UniqueIds(parameters) ==> forall i :: 0 <= i < |r| ==>
                r[i].value == Coerce(Some(parameters[i]), formData.data[i].value, numberToString)
    {
      assert Valid() ==> forall i :: 0 <= i < |formData.data| ==>
               FindParameter(parameters, formData.data[i].id).Some?
               && (UniqueIds(parameters) ==>
                     FindParameter(parameters, formData.data[i].id) == Some(parameters[i])) by {
        if Valid() {
          forall i | 0 <= i < |formData.data|
            ensures FindParameter(parameters, formData.data[i].id).Some?
            ensures UniqueIds(parameters) ==>
                      FindParameter(parameters, formData.data[i].id) == Some(parameters[i])
          {
            DefinitionsFound(parameters, formData.data, i);
          }
        }
      }
      NormalizePreservesIds(parameters, formData.data, numberToString);
      NormalizeEntries(parameters, formData.data, numberToString)
    }

    /** Submitting the current form with the given overwrite flag. */
    method HandleUpdate(overwriteFlag: bool, status: int)
      requires Valid()
      modifies this`posts, this`responses, this`modalOpen, this`refreshCount, this`toasts
      ensures Valid()
      ensures posts == old(posts) + [Payload(formData.date, MappedData(), overwriteFlag)]
      ensures status == 400 ==>
                modalOpen && refreshCount == old(refreshCount) && toasts == old(toasts)
      ensures status == 200 ==>
                modalOpen == old(modalOpen) && refreshCount == old(refreshCount) + 1
                && toasts == old(toasts) + [SuccessToast]
      ensures status != 200 && status != 400 ==>
                modalOpen == old(modalOpen) && refreshCount == old(refreshCount)
                && toasts == old(toasts) + [ErrorToast]
    {
      var mappedData := MappedData();
      HandleSubmit(Submission(formData.date, mappedData), overwriteFlag, status);
    }

    /** The Update button: a first submission never asks to overwrite. */
    method OnUpdateClick(status: int)
      requires Valid()
      modifies this`posts, this`responses, this`modalOpen, this`refreshCount, this`toasts
      ensures Valid()
      ensures posts == old(posts) + [Payload(formData.date, MappedData(), false)]
      ensures status == 400 ==>
                modalOpen && refreshCount == old(refreshCount) && toasts == old(toasts)
      ensures status == 200 ==>
                modalOpen == old(modalOpen) && refreshCount == old(refreshCount) + 1
                && toasts == old(toasts) + [SuccessToast]
      ensures status != 200 && status != 400 ==>
                modalOpen == old(modalOpen) && refreshCount == old(refreshCount)
                && toasts == old(toasts) + [ErrorToast]
    {
      HandleUpdate(false, status);
    }

    /** The dialog's Cancel button: the dialog closes, the "Ok!" toast is
        shown, and nothing is posted. */
    method OnCancel()
      requires Valid()
      modifies this`modalOpen, this`toasts
      ensures Valid()
      ensures !modalOpen
      ensures toasts == old(toasts) + [NotOverwrittenToast]
    {
      modalOpen := false;
      toasts := toasts + [NotOverwrittenToast];
    }

    /** The dialog's Confirm button: the current form is posted again with
        overwrite set. The request is issued and the dialog closed before the
        response arrives, so a second 400 opens the dialog again; any other
        status leaves it closed. */
    method OnConfirm(status: int)
      requires Valid()
      modifies this`posts, this`responses, this`modalOpen, this`refreshCount, this`toasts
      ensures Valid()
      ensures posts == old(posts) + [Payload(formData.date, MappedData(), true)]
      ensures modalOpen == (status == 400)
      ensures status == 400 ==> refreshCount == old(refreshCount) && toasts == old(toasts)
      ensures status == 200 ==>
                refreshCount == old(refreshCount) + 1 && toasts == old(toasts) + [SuccessToast]
      ensures status != 200 && status != 400 ==>
                refreshCount == old(refreshCount) && toasts == old(toasts) + [ErrorToast]
    {
      // handleUpdate(true) only reads the form, so closing the dialog first
      // is indistinguishable from closing it right after the request is issued.
      modalOpen := false;
      HandleUpdate(true, status);
    }

    /** The dialog's own open/close notification (for instance Escape). */
    method OnOpenChange(open: bool)
      requires Valid()
      modifies this`modalOpen
      ensures Valid()
      ensures modalOpen == open
    {
      modalOpen := open;
    }

    /** Changing the value of parameter `id`. */
    method HandleInputChange(id: string, value: Value)
      requires Valid()
      modifies this`formData
      ensures Valid()
      ensures formData == FormData(old(formData.date), UpdateEntries(old(formData.data), id, value))
    {
      UpdatePreservesIds(formData.data, id, value);
      formData := formData.(data := UpdateEntries(formData.data, id, value));
    }

    /** The yes/no select of a boolean parameter stores whether "true" was chosen. */
    method OnSelectValueChange(id: string, choice: string)
      requires Valid()
      modifies this`formData
      ensures Valid()
      ensures formData == FormData(old(formData.date),
                                   UpdateEntries(old(formData.data), id, BoolV(choice == "true")))
    {
      HandleInputChange(id, BoolV(choice == "true"));
    }

    /** The text or number input of a parameter stores the typed string. */
    method OnInputChange(id: string, text: string)
      requires Valid()
      modifies this`formData
      ensures Valid()
      ensures formData == FormData(old(formData.date), UpdateEntries(old(formData.data), id, StrV(text)))
    {
      HandleInputChange(id, StrV(text));
    }

    /** Picking a date in the calendar; clearing the selection falls back to
        the current day, passed in as `now`. */
    method OnSelectDate(picked: Option<Date>, now: Date)
      requires Valid()
      modifies this`formData
      ensures Valid()
      ensures formData == FormData(if picked.Some? then picked.value else now, old(formData.data))
    {
      formData := formData.(date := if picked.Some? then picked.value else now);
    }
  }

  /** The overwrite workflow end to end: an Update answered with 400 opens
      the dialog without refreshing or toasting, and a Confirm right after it
      posts the very same date and data again, only with overwrite set. */
  method UpdateThenConfirm(c: DailyParameters, status: int)
    requires c.Valid()
    modifies c`posts, c`responses, c`modalOpen, c`refreshCount, c`toasts
    ensures c.Valid()
    ensures |c.posts| == |old(c.posts)| + 2
    ensures c.posts[|c.posts| - 2].overwrite == false
    ensures c.posts[|c.posts| - 1] == c.posts[|c.posts| - 2].(overwrite := true)
    ensures c.modalOpen == (status == 400)
    ensures status == 400 ==>
              c.refreshCount == old(c.refreshCount) && c.toasts == old(c.toasts)
    ensures status == 200 ==>
              c.refreshCount == old(c.refreshCount) + 1 && c.toasts == old(c.toasts) + [SuccessToast]
    ensures status != 200 && status != 400 ==>
              c.refreshCount == old(c.refreshCount) && c.toasts == old(c.toasts) + [ErrorToast]
  {
    c.OnUpdateClick(400);
    assert c.modalOpen && c.refreshCount == old(c.refreshCount) && c.toasts == old(c.toasts);
    c.OnConfirm(status);
  }
}
