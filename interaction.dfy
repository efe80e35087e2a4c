/**
 * The player's interaction detector: remembers the one interactable whose
 * trigger it is inside and forwards the interact key to it.
 */
module Interaction {
  import Dialogue

  class InteractionDetector {
    /** The interactable in range; null when there is none. */
    var interactableInRange: Dialogue.PandaExpressController?

    constructor ()
      ensures interactableInRange == null
    {
      interactableInRange := null;
    }

    /**
     * The interact key: a performed press reaches the interactable in range
     * and nothing else; any other phase, or no interactable, changes nothing.
     */
    method OnInteract(performed: bool)
      requires interactableInRange != null ==> interactableInRange.Valid()
      modifies interactableInRange
      ensures interactableInRange == old(interactableInRange)
      ensures interactableInRange != null ==> interactableInRange.Valid()
      ensures performed && interactableInRange != null ==>
                interactableInRange.Snapshot()
                == Dialogue.Interacted(interactableInRange.dialogueData, interactableInRange.uiAssigned,
                                       old(interactableInRange.Snapshot()))
      ensures !performed && interactableInRange != null ==> unchanged(interactableInRange)
    {
      if performed {
        if interactableInRange != null {
          interactableInRange.Interact();
        }
      }
    }

    /**
     * Entering a trigger: the collider's interactable (null when it has none)
     * becomes the one in range exactly when it can be interacted with;
     * otherwise the previous one stays.
     */
    method OnTriggerEnter2D(other: Dialogue.PandaExpressController?)
      modifies this`interactableInRange
      ensures other != null && other.CanInteract() ==> interactableInRange == other
      ensures !(other != null && other.CanInteract()) ==> interactableInRange == old(interactableInRange)
    {
      if other != null && other.CanInteract() {
        interactableInRange := other;
      }
    }

    /** Leaving a trigger: the slot is cleared exactly when it held that collider's interactable. */
    method OnTriggerExit2D(other: Dialogue.PandaExpressController?)
      modifies this`interactableInRange
      ensures other != null && other == old(interactableInRange) ==> interactableInRange == null
      ensures !(other != null && other == old(interactableInRange)) ==> interactableInRange == old(interactableInRange)
    {
      if other != null && other == interactableInRange {
        interactableInRange := null;
      }
    }
  }
}
