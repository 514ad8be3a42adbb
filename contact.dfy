/** The contact section: a four-field form whose submission is simulated by
    a fixed delay followed by one success notification, and the section's
    reveal latch. */
module Contact {
  import Reveal

  /** The names of the form's inputs. */
  datatype Field = Name | Email | Company | Message

  datatype FormData = FormData(name: string, email: string, company: string, message: string)

  const EmptyForm := FormData("", "", "", "")

  const SuccessMessage := "Message sent successfully! We will get back to you soon."

  /** The value an input shows. */
  function Get(d: FormData, f: Field): string
  {
    match f
    case Name => d.name
    case Email => d.email
    case Company => d.company
    case Message => d.message
  }

  /** The change handler's updater: the named field takes the new value and
      every other field keeps its own. */
  function WithField(d: FormData, f: Field, v: string): (r: FormData)
    ensures Get(r, f) == v
    ensures forall g :: g != f ==> Get(r, g) == Get(d, g)
  {
    match f
    case Name => d.(name := v)
    case Email => d.(email := v)
    case Company => d.(company := v)
    case Message => d.(message := v)
  }

  /** Typing into a field twice keeps only the second value; edits to two
      different fields can be made in either order. */
  lemma EditsCompose(d: FormData, f: Field, g: Field, v: string, w: string)
    ensures WithField(WithField(d, f, v), f, w) == WithField(d, f, w)
    ensures f != g ==> WithField(WithField(d, f, v), g, w) == WithField(WithField(d, g, w), f, v)
  {
  }

  /** Writing back the value a field already shows changes nothing. */
  lemma WriteBackUnchanged(d: FormData, f: Field)
    ensures WithField(d, f, Get(d, f)) == d
  {
  }

  /** The browser's constraint check before a submission: the name, email
      and message inputs are marked required, the company input is not. */
  predicate RequiredFilled(d: FormData): (ok: bool)
    ensures ok <==> forall f :: f != Company ==> Get(d, f) != ""
  {
    assert Get(d, Name) == d.name && Get(d, Email) == d.email && Get(d, Message) == d.message;
    d.name != "" && d.email != "" && d.message != ""
  }

  /** The section's state: the form, the submitting flag, the notifications
      shown so far (oldest first) and the reveal latch. */
  class ContactSection {
    var form: FormData
    var submitting: bool
    var notifications: seq<string>
    var latch: Reveal.Latch

    ghost predicate Valid()
      reads this
    {
      Reveal.Consistent(latch)
    }

    /** Mounting: empty fields, not submitting, not visible. */
    constructor (targetPresent: bool)
      ensures Valid()
      ensures form == EmptyForm && !submitting && notifications == []
      ensures latch == Reveal.Mount(targetPresent)
    {
      form := EmptyForm;
      submitting := false;
      notifications := [];
      latch := Reveal.Mount(targetPresent);
    }

    /** The submit button is disabled exactly while a submission is in flight. */
    predicate SubmitDisabled(): (disabled: bool)
      reads this
      ensures disabled <==> submitting
    {
      submitting
    }

    /** An input's change event. */
    method Change(f: Field, v: string)
      requires Valid()
      modifies this
      ensures Valid()
      ensures form == WithField(old(form), f, v)
      ensures submitting == old(submitting) && notifications == old(notifications) && latch == old(latch)
    {
      form := WithField(form, f, v);
    }

    /** Submitting the form, up to the simulated delay. While the button is
      disabled, or while a required input is empty, the submission never
      reaches the handler; otherwise the flag is raised. The fields are left
      as they are either way. */
    method Submit()
      requires Valid()
      modifies this
      ensures Valid()
      ensures submitting <==> old(submitting) || RequiredFilled(old(form))
      ensures form == old(form) && notifications == old(notifications) && latch == old(latch)
    {
      if SubmitDisabled() || !RequiredFilled(form) {
        return;
      }
      submitting := true;
    }

    /** The continuation after the delay: one success notification, empty
      fields, flag lowered. There is no failure path. */
    method CompleteSubmit()
      requires Valid() && submitting
      modifies this
      ensures Valid()
      ensures notifications == old(notifications) + [SuccessMessage]
      ensures form == EmptyForm && !submitting && latch == old(latch)
    {
      notifications := notifications + [SuccessMessage];
      form := EmptyForm;
      submitting := false;
    }

    /** The observer's notification. */
    method Intersect(isIntersecting: bool)
      requires Valid()
      modifies this
      ensures Valid()
      ensures latch == Reveal.Deliver(old(latch), isIntersecting)
      ensures old(latch).visible ==> latch == old(latch)
      ensures form == old(form) && submitting == old(submitting) && notifications == old(notifications)
    {
      if latch.observing && isIntersecting {
        latch := Reveal.Latch(true, false);
      }
    }

    /** The cleanup on unmount. */
    method Teardown()
      requires Valid()
      modifies this
      ensures Valid()
      ensures latch == Reveal.Teardown(old(latch))
      ensures form == old(form) && submitting == old(submitting) && notifications == old(notifications)
    {
      latch := Reveal.Latch(latch.visible, false);
    }
  }

  /** A typical submission: fill in the form, submit, wait. The button
      is disabled during the delay, the fields are kept until it ends, and
      afterwards the button is enabled again, the fields are empty and one
      success notification has been shown. */
  method SubmissionScenario()
    returns (disabledDuring: bool, formDuring: FormData, disabledAfter: bool,
             formAfter: FormData, shown: seq<string>)
    ensures disabledDuring && !disabledAfter
    ensures formDuring == FormData("John Doe", "john@x.com", "", "Hello")
    ensures formAfter == EmptyForm && shown == [SuccessMessage]
  {
    var c := new ContactSection(true);
    c.Change(Name, "John Doe");
    c.Change(Email, "john@x.com");
    c.Change(Message, "Hello");
    c.Submit();
    disabledDuring, formDuring := c.SubmitDisabled(), c.form;
    c.Submit();
    c.CompleteSubmit();
    disabledAfter, formAfter, shown := c.SubmitDisabled(), c.form, c.notifications;
  }

  /** Submitting with a required input left empty does nothing: the button
      stays enabled and no notification is shown. */
  method IncompleteFormIgnored() returns (disabled: bool, shown: seq<string>)
    ensures !disabled && shown == []
  {
    var c := new ContactSection(true);
    c.Change(Name, "John Doe");
    c.Change(Email, "john@x.com");
    c.Submit();
    disabled, shown := c.SubmitDisabled(), c.notifications;
  }
}
