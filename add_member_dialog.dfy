/**
 * The add-member dialog: two text fields and a submit handler that trims and
 * validates them, forwards the trimmed pair to the page, and clears the form.
 */
module AddMemberDialog {
  import opened Wrappers
  import opened JsStrings

  /** What the dialog hands to `onAddMember`. */
  datatype MemberData = MemberData(name: string, phone: string)

  /** The outcome of a submit: the pair forwarded to `onAddMember`, or `None` when
      the name or the phone is empty once trimmed. */
  function Submission(name: string, phone: string): (r: Option<MemberData>)
    ensures r.None? <==> Trim(name) == [] || Trim(phone) == []
    ensures r.Some? ==> r.value == MemberData(Trim(name), Trim(phone))
  {
    var n := Trim(name);
    var p := Trim(phone);
    if n == [] || p == [] then None else Some(MemberData(n, p))
  }

  /** A name or a phone made only of whitespace (or empty) is always rejected. */
  lemma WhitespaceOnlyRejected(name: string, phone: string)
    requires (forall i :: 0 <= i < |name| ==> IsWhitespace(name[i]))
          || (forall i :: 0 <= i < |phone| ==> IsWhitespace(phone[i]))
    ensures Submission(name, phone) == None
  {
  }

  /** What is forwarded is non-empty and has no whitespace at either end. */
  lemma ForwardedIsClean(name: string, phone: string)
    ensures Submission(name, phone).Some? ==>
      var d := Submission(name, phone).value;
      && d.name != [] && !IsWhitespace(d.name[0]) && !IsWhitespace(d.name[|d.name| - 1])
      && d.phone != [] && !IsWhitespace(d.phone[0]) && !IsWhitespace(d.phone[|d.phone| - 1])
      && Trim(d.name) == d.name && Trim(d.phone) == d.phone
  {
    if Submission(name, phone).Some? {
      var d := Submission(name, phone).value;
      assert Trim(d.name) == d.name by {
        TrimIdempotent(name);
      }
      assert Trim(d.phone) == d.phone by {
        TrimIdempotent(phone);
      }
    }
  }

  /** What is forwarded is a contiguous part of what was typed, with only whitespace
      cut off around it. */
  lemma ForwardedIsTyped(name: string, phone: string)
    ensures Submission(name, phone).Some? ==>
      var d := Submission(name, phone).value;
      && (exists a, b :: WhitespaceOutside(name, a, b) && d.name == name[a..b])
      && (exists a, b :: WhitespaceOutside(phone, a, b) && d.phone == phone[a..b])
  {
    var a, b := TrimBounds(name);
    var c, e := TrimBounds(phone);
  }

  /** The dialog's form state: the `name` and `phone` inputs. */
  class AddMemberForm {
    var name: string
    var phone: string

    constructor ()
      ensures name == "" && phone == ""
    {
      name := "";
      phone := "";
    }

    /** The name input's `onChange`. */
    method SetName(value: string)
      modifies this`name
      ensures name == value
    {
      name := value;
    }

    /** The phone input's `onChange`. */
    method SetPhone(value: string)
      modifies this`phone
      ensures phone == value
    {
      phone := value;
    }

    /**
     * `handleSubmit`: on invalid input returns `None` and changes nothing; otherwise
     * returns the trimmed pair, which the caller passes to `onAddMember` exactly once,
     * and clears both fields.
     */
    method HandleSubmit() returns (sent: Option<MemberData>)
      modifies this
      ensures sent == Submission(old(name), old(phone))
      ensures sent.None? ==> name == old(name) && phone == old(phone)
      ensures sent.Some? ==> name == "" && phone == ""
    {
      if Trim(name) == [] || Trim(phone) == [] {
        return None;
      }
      sent := Some(MemberData(Trim(name), Trim(phone)));
      name := "";
      phone := "";
    }
  }
}
