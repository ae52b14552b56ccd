/**
 * src/commands/copy-template.ts (the same code is inline in src/index.ts):
 * whether a single template is copied. Whether the template is readable,
 * whether the destination exists and the confirmation answer are inputs.
 */
module CopyTemplate {
  import opened Wrappers

  /** The answer to "File already exists, overwrite?"; cancelling ends the process. */
  datatype Answer = Confirmed(overwrite: bool) | Cancelled

  /** The package's own directory, or the working directory. */
  datatype Root = PackageDir | WorkingDir
  datatype Location = Location(root: Root, path: string)

  datatype Outcome =
    | TemplateNotFound(filename: string)
    | Exited
    | Copied(from: Location, to: Location)
    | NotCopied

  /** The copy made for `filename`: from the package's templates directory
      to the same name in the working directory. */
  function CopyOf(filename: string): (o: Outcome)
    ensures o.Copied? && o.from.root == PackageDir && o.to.root == WorkingDir
    ensures o.to.path == filename && o.from.path == "templates/" + filename
  {
    Copied(Location(PackageDir, "templates/" + filename), Location(WorkingDir, filename))
  }

  /**
   * The command as written: the number of prompts shown and the outcome.
   * `yes` is only set by the overwrite answer, so a destination that does
   * not exist leaves it unset and nothing is copied.
   */
  function Decision(filename: string, yes: Option<bool>, templateReadable: bool,
                    destinationExists: bool, answer: Answer): (r: (nat, Outcome))
    ensures !templateReadable ==> r == (0, TemplateNotFound(filename))
    ensures templateReadable && yes == Some(true) ==> r == (0, CopyOf(filename))
    ensures templateReadable && yes != Some(true) && destinationExists ==>
      && r.0 == 1
      && (r.1.Copied? <==> answer == Confirmed(true))
      && (answer == Confirmed(false) ==> r.1 == NotCopied)
      && (answer.Cancelled? ==> r.1 == Exited)
    ensures templateReadable && yes != Some(true) && !destinationExists ==> r == (0, NotCopied)
    ensures r.1.Copied? ==> r.1 == CopyOf(filename)
  {
    if !templateReadable then (0, TemplateNotFound(filename))
    else if yes == Some(true) then (0, CopyOf(filename))
    else if !destinationExists then (0, NotCopied)
    else match answer
      case Cancelled => (1, Exited)
      case Confirmed(overwrite) => (1, if overwrite then CopyOf(filename) else NotCopied)
  }

  /** The statements of the action, with `yes` and `fileAlreadyExists` reassigned in turn. */
  method CopyTemplate(filename: string, yesOption: Option<bool>, templateReadable: bool,
                      destinationExists: bool, answer: Answer)
    returns (prompts: nat, outcome: Outcome)
    ensures (prompts, outcome) == Decision(filename, yesOption, templateReadable, destinationExists, answer)
  {
    prompts := 0;
    var yes := yesOption;
    if !templateReadable {
      return 0, TemplateNotFound(filename);
    }
    if yes != Some(true) {
      var fileAlreadyExists := false;
      if destinationExists {
        fileAlreadyExists := true;
      }
      if fileAlreadyExists {
        prompts := prompts + 1;
        match answer
        case Cancelled =>
          return prompts, Exited;
        case Confirmed(overwrite) =>
          yes := Some(overwrite);
      }
    }
    if yes == Some(true) {
      outcome := CopyOf(filename);
    } else {
      outcome := NotCopied;
    }
  }

  /** The evidently intended command: confirmation is asked only to overwrite,
      so a missing destination is copied to without a question. */
  function IntendedDecision(filename: string, yes: Option<bool>, templateReadable: bool,
                            destinationExists: bool, answer: Answer): (r: (nat, Outcome))
    ensures r.0 == (if templateReadable && yes != Some(true) && destinationExists then 1 else 0)
    ensures r.1.Copied? <==>
      templateReadable && (yes == Some(true) || !destinationExists || answer == Confirmed(true))
    ensures r.1.Copied? ==> r.1 == CopyOf(filename)
  {
    if templateReadable && yes != Some(true) && !destinationExists then (0, CopyOf(filename))
    else Decision(filename, yes, templateReadable, destinationExists, answer)
  }

  /** Without `--yes` and with no file at the destination, the command as
      written copies nothing, where the intended one copies the template. */
  lemma AbsentDestinationNotCopied(filename: string, answer: Answer)
    ensures Decision(filename, None, true, false, answer) == (0, NotCopied)
    ensures IntendedDecision(filename, None, true, false, answer) == (0, CopyOf(filename))
  {
  }

  /** The two agree wherever a destination exists or `--yes` is given. */
  lemma IntendedAgreesElsewhere(filename: string, yes: Option<bool>, templateReadable: bool,
                                destinationExists: bool, answer: Answer)
    requires destinationExists || yes == Some(true) || !templateReadable
    ensures IntendedDecision(filename, yes, templateReadable, destinationExists, answer)
         == Decision(filename, yes, templateReadable, destinationExists, answer)
  {
  }
}
